/** The route map: which permissions a path requires, found by exact match or by the nearest declared
    ancestor. The table of declared pages is a parameter. */
module Pages {
  import opened Wrappers
  import opened Text
  import opened Permissions

  datatype Page = Page(pattern: string, permissions: seq<string>, every: bool)

  // ---- lookup --------------------------------------------------------------------------------

  function NonEmpty(parts: seq<string>): seq<string> {
    if parts == [] then []
    else if parts[0] == "" then NonEmpty(parts[1..])
    else [parts[0]] + NonEmpty(parts[1..])
  }

  function Segments(path: string): seq<string> {
    NonEmpty(Split(path, '/'))
  }

  predicate IsParameter(part: string) {
    part != "" && part[0] == '[' && part[|part| - 1] == ']'
  }

  predicate MatchesPathPattern(path: string, pattern: string) {
    if path == pattern then true
    else if '[' !in pattern then false
    else
      var pathParts, patternParts := Segments(path), Segments(pattern);
      && |pathParts| == |patternParts|
      && forall i | 0 <= i < |patternParts| :: IsParameter(patternParts[i]) || patternParts[i] == pathParts[i]
  }

  function StripSlashes(path: string): string {
    if path != "" && path[|path| - 1] == '/' then StripSlashes(path[..|path| - 1]) else path
  }

  function Normalize(path: string): string {
    if StripSlashes(path) == "" then "/" else StripSlashes(path)
  }

  function FirstMatch(table: seq<Page>, path: string): Option<Page> {
    if table == [] then None
    else if MatchesPathPattern(path, table[0].pattern) then Some(table[0])
    else FirstMatch(table[1..], path)
  }

  predicate IsAncestor(pattern: string, path: string) {
    pattern + "/" <= path
  }

  function Ancestors(table: seq<Page>, path: string): seq<Page> {
    if table == [] then []
    else
      var last := table[|table| - 1];
      Ancestors(table[..|table| - 1], path) + (if IsAncestor(last.pattern, path) then [last] else [])
  }

  /** Insertion behind every page with a pattern at least as long: a stable sort, longest first. */
  function InsertByLength(sorted: seq<Page>, page: Page): (r: seq<Page>)
    ensures |r| == |sorted| + 1
  {
    if sorted == [] || |sorted[0].pattern| < |page.pattern| then [page] + sorted
    else [sorted[0]] + InsertByLength(sorted[1..], page)
  }

  function SortByLength(pages: seq<Page>): (r: seq<Page>)
    ensures |r| == |pages|
  {
    if pages == [] then [] else InsertByLength(SortByLength(pages[..|pages| - 1]), pages[|pages| - 1])
  }

  function GetPagePermissions(table: seq<Page>, path: string): Option<Page> {
    var normalized := Normalize(path);
    var exact := FirstMatch(table, normalized);
    if exact.Some? then exact
    else
      var ancestors := SortByLength(Ancestors(table, normalized));
      if ancestors == [] then None else Some(ancestors[0])
  }

  predicate CanAccessPage(registry: set<string>, table: seq<Page>, path: string, granted: set<string>) {
    match GetPagePermissions(table, path)
    case None => true
    case Some(page) =>
      if page.every then HasEveryPermission(registry, granted, page.permissions)
      else HasAnyPermission(registry, granted, page.permissions)
  }

  // ---- walking up ----------------------------------------------------------------------------

  function Declared(table: seq<Page>, pattern: string): Option<Page> {
    if table == [] then None
    else if table[0].pattern == pattern then Some(table[0])
    else Declared(table[1..], pattern)
  }

  function LastSlash(path: string): (i: int)
    ensures -1 <= i < |path|
    ensures i >= 0 ==> path[i] == '/'
    ensures forall j | i < j < |path| :: path[j] != '/'
  {
    if path == "" then -1
    else if path[|path| - 1] == '/' then |path| - 1
    else LastSlash(path[..|path| - 1])
  }

  /** The page itself if it is declared, and otherwise the nearest of its parent. */
  function Nearest(table: seq<Page>, path: string): Option<Page>
    decreases |path|
  {
    var declared := Declared(table, path);
    if declared.Some? then declared
    else if LastSlash(path) < 0 then None
    else Nearest(table, path[..LastSlash(path)])
  }

  /** `page` is declared first under its pattern, which is `path` or an ancestor of it, and no longer
      declared pattern is. */
  predicate IsNearest(table: seq<Page>, path: string, page: Page) {
    && Declared(table, page.pattern) == Some(page)
    && (page.pattern == path || IsAncestor(page.pattern, path))
    && forall other <- table ::
         other.pattern == path || IsAncestor(other.pattern, path) ==> |other.pattern| <= |page.pattern|
  }

  lemma {:induction false} DeclaredFinds(table: seq<Page>, pattern: string)
    ensures var page := Declared(table, pattern);
            if page.Some? then page.value in table && page.value.pattern == pattern
            else forall other <- table :: other.pattern != pattern
  {
    if table == [] {
    } else {
      DeclaredFinds(table[1..], pattern);
    }
  }

  lemma {:induction false} DeclaredAppend(table: seq<Page>, page: Page, pattern: string)
    ensures Declared(table + [page], pattern)
         == if Declared(table, pattern).Some? then Declared(table, pattern)
            else if page.pattern == pattern then Some(page) else None
  {
    if table == [] {
      assert table + [page] == [page] && [page][1..] == [];
    } else {
      assert (table + [page])[0] == table[0] && (table + [page])[1..] == table[1..] + [page];
      DeclaredAppend(table[1..], page, pattern);
    }
  }

  lemma AncestorIsCut(pattern: string, path: string)
    ensures IsAncestor(pattern, path) <==>
            |pattern| < |path| && path[|pattern|] == '/' && path[..|pattern|] == pattern
  {
    if IsAncestor(pattern, path) {
      var i := |pattern|;
      assert (pattern + "/")[i] == '/' && path[..i] == (pattern + "/")[..i];
    }
    if |pattern| < |path| && path[|pattern|] == '/' && path[..|pattern|] == pattern {
      assert path[..|pattern| + 1] == pattern + "/";
    }
  }

  /** A proper ancestor is the parent or an ancestor of the parent. */
  lemma AncestorOfParent(pattern: string, path: string)
    requires LastSlash(path) >= 0
    ensures var parent := path[..LastSlash(path)];
            IsAncestor(pattern, path) <==> pattern == parent || IsAncestor(pattern, parent)
  {
    var i := LastSlash(path);
    var parent := path[..i];
    AncestorIsCut(pattern, path);
    AncestorIsCut(pattern, parent);
    if |pattern| < i {
      assert parent[..|pattern|] == path[..|pattern|];
    }
  }

  lemma {:induction false} NearestIsNearest(table: seq<Page>, path: string)
    ensures Nearest(table, path).Some? ==> IsNearest(table, path, Nearest(table, path).value)
    ensures Nearest(table, path).None? ==>
              forall other <- table :: other.pattern != path && !IsAncestor(other.pattern, path)
    decreases |path|
  {
    DeclaredFinds(table, path);
    forall other: Page ensures IsAncestor(other.pattern, path) ==> |other.pattern| < |path| {
      AncestorIsCut(other.pattern, path);
    }
    if Declared(table, path).None? {
      var i := LastSlash(path);
      if i < 0 {
        forall other <- table ensures !IsAncestor(other.pattern, path) {
          AncestorIsCut(other.pattern, path);
        }
      } else {
        NearestIsNearest(table, path[..i]);
        forall other: Page
          ensures IsAncestor(other.pattern, path) <==>
                  other.pattern == path[..i] || IsAncestor(other.pattern, path[..i])
        {
          AncestorOfParent(other.pattern, path);
        }
      }
    }
  }

  /** What the sort brings to the front: the earliest of the longest. */
  lemma {:induction false} SortedAncestors(table: seq<Page>, path: string)
    requires Declared(table, path).None?
    ensures var ancestors := SortByLength(Ancestors(table, path));
            if ancestors == []
            then forall other <- table :: !IsAncestor(other.pattern, path)
            else IsNearest(table, path, ancestors[0])
  {
    if table == [] {
    } else {
      var front, last := table[..|table| - 1], table[|table| - 1];
      assert table == front + [last];
      DeclaredAppend(front, last, path);
      SortedAncestors(front, path);
      FrontOfSort(front, last, path);
    }
  }

  lemma FrontOfSort(front: seq<Page>, last: Page, path: string)
    requires var ancestors := SortByLength(Ancestors(front, path));
             if ancestors == []
             then forall other <- front :: !IsAncestor(other.pattern, path)
             else IsNearest(front, path, ancestors[0])
    requires Declared(front + [last], path).None?
    ensures var ancestors := SortByLength(Ancestors(front + [last], path));
            if ancestors == []
            then forall other <- front + [last] :: !IsAncestor(other.pattern, path)
            else IsNearest(front + [last], path, ancestors[0])
  {
    hide IsAncestor, Declared, IsNearest;
    var table := front + [last];
    assert table[..|table| - 1] == front && table[|table| - 1] == last;
    var fewer, more := Ancestors(front, path), Ancestors(table, path);
    var sorted := SortByLength(fewer);
    if IsAncestor(last.pattern, path) {
      assert more == fewer + [last] && more[..|more| - 1] == fewer;
      if sorted == [] || |sorted[0].pattern| < |last.pattern| {
        LastIsNearest(front, last, path, sorted);
      } else {
        FirstStaysNearest(front, last, path, sorted[0]);
      }
    } else {
      assert more == fewer;
      if sorted != [] {
        FirstStaysNearest(front, last, path, sorted[0]);
      }
    }
  }

  /** A longer ancestor at the end takes the lead. */
  lemma LastIsNearest(front: seq<Page>, last: Page, path: string, sorted: seq<Page>)
    requires if sorted == []
             then forall other <- front :: !IsAncestor(other.pattern, path)
             else IsNearest(front, path, sorted[0]) && |sorted[0].pattern| < |last.pattern|
    requires IsAncestor(last.pattern, path) && Declared(front + [last], path).None?
    ensures IsNearest(front + [last], path, last)
  {
    hide IsAncestor, Declared;
    DeclaredFinds(front + [last], path);
    DeclaredFinds(front, last.pattern);
    DeclaredAppend(front, last, last.pattern);
    assert forall other <- front + [last] :: other in front || other == last;
    assert forall other <- front :: other in front + [last];
  }

  /** A page at the end that is no ancestor, or no longer one, does not. */
  lemma FirstStaysNearest(front: seq<Page>, last: Page, path: string, first: Page)
    requires IsNearest(front, path, first) && Declared(front + [last], path).None?
    requires IsAncestor(last.pattern, path) ==> |last.pattern| <= |first.pattern|
    ensures IsNearest(front + [last], path, first)
  {
    hide IsAncestor, Declared;
    DeclaredFinds(front + [last], path);
    DeclaredAppend(front, last, first.pattern);
    assert last in front + [last];
    assert forall other <- front + [last] :: other in front || other == last;
  }

  lemma NearestIsUnique(table: seq<Page>, path: string, one: Page, two: Page)
    requires IsNearest(table, path, one) && IsNearest(table, path, two)
    ensures one == two
  {
    DeclaredFinds(table, one.pattern);
    DeclaredFinds(table, two.pattern);
    AncestorIsCut(one.pattern, path);
    AncestorIsCut(two.pattern, path);
    assert one.pattern == path[..|one.pattern|] && two.pattern == path[..|two.pattern|];
  }

  /** The lookup walks up to the nearest declared ancestor, for every table: filtering by prefix and
      sorting by length finds what going from parent to parent finds. */
  lemma LookupWalksUp(table: seq<Page>, path: string)
    ensures var normalized := Normalize(path);
            GetPagePermissions(table, path)
            == if FirstMatch(table, normalized).Some? then FirstMatch(table, normalized) else Nearest(table, normalized)
  {
    var normalized := Normalize(path);
    if FirstMatch(table, normalized).None? {
      NoMatchIsUndeclared(table, normalized);
      NearestIsNearest(table, normalized);
      SortedAncestors(table, normalized);
      DeclaredFinds(table, normalized);
      var sorted := SortByLength(Ancestors(table, normalized));
      if sorted != [] && Nearest(table, normalized).Some? {
        NearestIsUnique(table, normalized, sorted[0], Nearest(table, normalized).value);
      }
      if sorted != [] {
        DeclaredFinds(table, sorted[0].pattern);
      }
      if Nearest(table, normalized).Some? {
        DeclaredFinds(table, Nearest(table, normalized).value.pattern);
      }
    }
  }

  lemma {:induction false} NoMatchIsUndeclared(table: seq<Page>, path: string)
    requires FirstMatch(table, path).None?
    ensures Declared(table, path).None?
  {
    if table == [] {
    } else {
      NoMatchIsUndeclared(table[1..], path);
    }
  }

  // ---- consequences --------------------------------------------------------------------------

  /** A trailing slash makes no difference. */
  lemma TrailingSlashIgnored(table: seq<Page>, path: string)
    ensures GetPagePermissions(table, path + "/") == GetPagePermissions(table, path)
  {
    assert (path + "/")[..|path + "/"| - 1] == path;
  }

  predicate NoParameters(table: seq<Page>) {
    forall page <- table :: '[' !in page.pattern
  }

  lemma {:induction false} LiteralMatchIsDeclared(table: seq<Page>, path: string)
    requires NoParameters(table)
    ensures FirstMatch(table, path) == Declared(table, path)
  {
    if table == [] {
    } else {
      assert table[0] in table;
      LiteralMatchIsDeclared(table[1..], path);
    }
  }

  /** Without parameters in the patterns the requirement is that of the longest declared pattern that is
      the path or an ancestor of it, and there is none only if no pattern is either. */
  lemma LookupIsLongestDeclared(table: seq<Page>, path: string)
    requires NoParameters(table)
    ensures var found, normalized := GetPagePermissions(table, path), Normalize(path);
            if found.Some? then IsNearest(table, normalized, found.value)
            else forall other <- table :: other.pattern != normalized && !IsAncestor(other.pattern, normalized)
  {
    LookupWalksUp(table, path);
    LiteralMatchIsDeclared(table, Normalize(path));
    NearestIsNearest(table, Normalize(path));
  }

  /** Nothing is declared between a path and a longer one that continues it below a slash. */
  predicate UndeclaredBelow(table: seq<Page>, path: string, nested: string) {
    forall page <- table :: |page.pattern| > |path| ==> page.pattern != nested && !IsAncestor(page.pattern, nested)
  }

  lemma {:induction false} NearestOfNested(table: seq<Page>, path: string, nested: string)
    requires path + "/" <= nested && UndeclaredBelow(table, path, nested)
    ensures Nearest(table, nested) == Nearest(table, path)
    decreases |nested|
  {
    DeclaredFinds(table, nested);
    AncestorIsCut(path, nested);
    var i := LastSlash(nested);
    var parent := nested[..i];
    if i > |path| {
      assert parent[..|path| + 1] == nested[..|path| + 1];
      forall page <- table | |page.pattern| > |path|
        ensures page.pattern != parent && !IsAncestor(page.pattern, parent)
      {
        AncestorOfParent(page.pattern, nested);
      }
      NearestOfNested(table, path, parent);
    } else {
      assert parent == path;
    }
  }

  /** The page a view lives under: everything absolute lives under the root. */
  predicate LivesUnder(nested: string, path: string) {
    nested != path && if path == "/" then "/" <= nested else path + "/" <= nested
  }

  /** A nested view, at any depth, for which nothing matches and nothing in between is declared. */
  predicate Inherits(table: seq<Page>, path: string, nested: string) {
    && Normalize(path) == path && Normalize(nested) == nested
    && LivesUnder(nested, path)
    && FirstMatch(table, nested).None?
    && UndeclaredBelow(table, path, nested)
  }

  /** It has the entry of the page it lives under exactly when that page has none of its own, or has one under
      its very path and is not the root. An entry found through a `[param]` pattern is not inherited, because
      such patterns are skipped on the way up; nor is the root's, because the root's prefix is taken to be
      two slashes. */
  lemma NestedViewInherits(table: seq<Page>, path: string, nested: string)
    requires Inherits(table, path, nested)
    ensures GetPagePermissions(table, nested) == GetPagePermissions(table, path)
            <==> var own := FirstMatch(table, path);
                 own.None? || (own.value.pattern == path && (path != "/" || "//" <= nested))
    ensures NoParameters(table) && path != "/" ==> GetPagePermissions(table, nested) == GetPagePermissions(table, path)
  {
    hide GetPagePermissions, Normalize;
    LookupWalksUp(table, path);
    LookupWalksUp(table, nested);
    FirstMatchMatches(table, path);
    if path + "/" <= nested {
      NearestOfNested(table, path, nested);
      OwnEntryIsNearest(table, path);
    } else {
      NearestBelowRoot(table, nested);
      AtRoot(table);
      DeclaredFinds(table, "");
    }
    if NoParameters(table) {
      LiteralMatchIsDeclared(table, path);
      DeclaredFinds(table, path);
    }
  }

  lemma {:induction false} FirstMatchMatches(table: seq<Page>, path: string)
    ensures var own := FirstMatch(table, path);
            own.Some? ==>
              && MatchesPathPattern(path, own.value.pattern)
              && (own.value.pattern == path ==> Declared(table, path) == own)
  {
    hide MatchesPathPattern;
    if table == [] {
    } else {
      FirstMatchMatches(table[1..], path);
      assert table[0].pattern == path ==> MatchesPathPattern(path, table[0].pattern) by { LiteralMatches(path); }
    }
  }

  lemma LiteralMatches(path: string)
    ensures MatchesPathPattern(path, path)
  {
  }

  /** An entry of the page's own is what the walk upwards finds exactly when its pattern is the path. */
  lemma OwnEntryIsNearest(table: seq<Page>, path: string)
    requires Normalize(path) == path
    ensures var own := FirstMatch(table, path);
            own.Some? ==> (own == Nearest(table, path) <==> own.value.pattern == path)
  {
    hide MatchesPathPattern, Normalize;
    FirstMatchMatches(table, path);
    NearestIsNearest(table, path);
    if FirstMatch(table, path).Some? {
      MatchIsNoAncestor(FirstMatch(table, path).value.pattern, path);
    }
  }

  lemma {:induction false} NonEmptyConcat(a: seq<string>, b: seq<string>)
    ensures NonEmpty(a + b) == NonEmpty(a) + NonEmpty(b)
  {
    if a == [] {
      assert a + b == b;
    } else {
      assert (a + b)[0] == a[0] && (a + b)[1..] == a[1..] + b;
      NonEmptyConcat(a[1..], b);
    }
  }

  /** Anything but slashes has a segment. */
  lemma {:induction false} SomeSegment(path: string, c: char)
    requires c in path && c != '/'
    ensures Segments(path) != []
  {
    var rest := Split(path[1..], '/');
    if path[0] == '/' {
      SomeSegment(path[1..], c);
      assert Split(path, '/')[1..] == rest;
    }
  }

  lemma EndOfNormal(path: string)
    requires Normalize(path) == path
    ensures path == "/" || (path != "" && path[|path| - 1] != '/')
  {
    if path != "" && path[|path| - 1] == '/' {
      Shorter(path[..|path| - 1]);
    }
  }

  lemma {:induction false} Shorter(path: string)
    ensures |StripSlashes(path)| <= |path|
  {
    if path == "" {
    } else {
      Shorter(path[..|path| - 1]);
    }
  }

  /** A pattern matches paths with as many segments as it has, so never one below it. */
  lemma MatchIsNoAncestor(pattern: string, path: string)
    requires Normalize(path) == path && MatchesPathPattern(path, pattern)
    ensures !IsAncestor(pattern, path)
  {
    hide NonEmpty, Normalize;
    if pattern + "/" <= path && path != "/" {
      var rest := path[|pattern| + 1..];
      assert path == pattern + "/" + rest;
      SplitConcat(pattern, rest, '/');
      NonEmptyConcat(Split(pattern, '/'), Split(rest, '/'));
      EndOfNormal(path);
      assert rest != "" && rest[|rest| - 1] in rest;
      SomeSegment(rest, rest[|rest| - 1]);
    }
  }

  /** Below the root, but not below two slashes, only a page declared as the empty string is found. */
  lemma NearestBelowRoot(table: seq<Page>, nested: string)
    requires "/" <= nested && nested != "/" && !("//" <= nested) && UndeclaredBelow(table, "/", nested)
    ensures Nearest(table, nested) == Declared(table, "")
  {
    NearestIsNearest(table, nested);
    DeclaredFinds(table, "");
    assert IsAncestor("", nested);
    var found := Nearest(table, nested);
    if found.Some? {
      DeclaredFinds(table, found.value.pattern);
      AncestorIsCut(found.value.pattern, nested);
      assert found.value.pattern == "/" ==> "/" + "/" == "//";
    }
  }

  lemma AtRoot(table: seq<Page>)
    ensures var own := FirstMatch(table, "/");
            && (own.Some? ==> own.value.pattern == "/")
            && (own.None? ==> Nearest(table, "/") == Declared(table, ""))
  {
    FirstMatchMatches(table, "/");
    var own := FirstMatch(table, "/");
    if own.Some? && own.value.pattern != "/" {
      assert Segments("/") == [] by { assert "/"[1..] == "" && Split("/", '/') == ["", ""]; }
      SomeSegment(own.value.pattern, '[');
    }
    if own.None? {
      NoMatchIsUndeclared(table, "/");
      assert LastSlash("/") == 0 && "/"[..0] == "";
    }
  }

  /** The second failing case: what the root requires, nothing below it does. */
  lemma BelowTheRootNothingIsRequired(page: Page, a: string)
    requires page.pattern == "/" && IsSegment(a)
    ensures GetPagePermissions([page], "/") == Some(page)
    ensures GetPagePermissions([page], "/" + a) == None
  {
    hide GetPagePermissions;
    var nested := "/" + a;
    assert a[|a| - 1] in a && a[0] in a;
    assert nested[|nested| - 1] != '/' && nested[1] == a[0] && "//"[1] == '/';
    LookupWalksUp([page], "/");
    LookupWalksUp([page], nested);
    assert [page][1..] == [];
    assert FirstMatch([page], nested).None?;
    assert StripSlashes("/") == "" by { assert "/"[..0] == ""; }
    assert UndeclaredBelow([page], "/", nested);
    NearestBelowRoot([page], nested);
  }

  /** Granting more never loses a page. */
  lemma AccessIsMonotone(registry: set<string>, table: seq<Page>, path: string, granted: set<string>, more: set<string>)
    requires granted <= more
    requires CanAccessPage(registry, table, path, granted)
    ensures CanAccessPage(registry, table, path, more)
  {
    hide GetPagePermissions, Unscoped, Scoped;
    var found := GetPagePermissions(table, path);
    if found.Some? && !found.value.every && found.value.permissions != [] {
      var permission :| permission in found.value.permissions && HasPermission(registry, granted, permission);
      assert HasPermission(registry, more, permission);
    }
  }

  predicate IsSegment(part: string) {
    part != "" && '/' !in part
  }

  lemma {:induction false} AllNonEmpty(parts: seq<string>)
    requires forall i | 0 <= i < |parts| :: parts[i] != ""
    ensures NonEmpty(parts) == parts
  {
    if parts == [] {
    } else {
      AllNonEmpty(parts[1..]);
      assert parts == [parts[0]] + parts[1..];
    }
  }

  lemma SegmentsAfterSlash(parts: seq<string>)
    requires forall i | 0 <= i < |parts| :: parts[i] != ""
    ensures NonEmpty([""] + parts) == parts
  {
    AllNonEmpty(parts);
    assert ([""] + parts)[1..] == parts;
  }

  lemma TwoSegments(a: string, b: string)
    requires IsSegment(a) && IsSegment(b)
    ensures Split("/" + a + "/" + b, '/') == ["", a, b]
    ensures Segments("/" + a + "/" + b) == [a, b]
    ensures Normalize("/" + a + "/" + b) == "/" + a + "/" + b
  {
    hide NonEmpty;
    SplitAtom("", '/');
    SplitAtom(a, '/');
    SplitAtom(b, '/');
    SplitConcat("", a, '/');
    assert "" + "/" + a == "/" + a;
    SplitConcat("/" + a, b, '/');
    SegmentsAfterSlash([a, b]);
    assert [""] + [a, b] == ["", a, b];
    assert b[|b| - 1] in b;
  }

  lemma ThreeSegments(a: string, b: string, c: string)
    requires IsSegment(a) && IsSegment(b) && IsSegment(c)
    ensures Split("/" + a + "/" + b + "/" + c, '/') == ["", a, b, c]
    ensures Segments("/" + a + "/" + b + "/" + c) == [a, b, c]
    ensures Normalize("/" + a + "/" + b + "/" + c) == "/" + a + "/" + b + "/" + c
  {
    hide NonEmpty;
    TwoSegments(a, b);
    SplitAtom(c, '/');
    SplitConcat("/" + a + "/" + b, c, '/');
    SegmentsAfterSlash([a, b, c]);
    assert [""] + [a, b, c] == ["", a, b, c];
    assert c[|c| - 1] in c;
  }

  lemma OtherSegmentIsNoAncestor(a: string, param: string, b: string, c: string)
    requires IsSegment(a) && IsSegment(param) && IsSegment(b) && IsSegment(c) && b != param
    ensures !IsAncestor("/" + a + "/" + param, "/" + a + "/" + b + "/" + c)
  {
    hide Segments, Normalize;
    var pattern, nested := "/" + a + "/" + param, "/" + a + "/" + b + "/" + c;
    if IsAncestor(pattern, nested) {
      var suffix := nested[|pattern| + 1..];
      assert nested == pattern + "/" + suffix;
      SplitConcat(pattern, suffix, '/');
      TwoSegments(a, param);
      assert Split(nested, '/')[2] == param;
      ThreeSegments(a, b, c);
    }
  }

  /** The promise that a nested view is never less protected than the page it lives under fails below a
      parameter: a page declared as `/a/[param]` requires its permissions at `/a/b`, and `/a/b/c`, which
      nothing declares, requires none. */
  lemma BelowAParameterNothingIsRequired(page: Page, a: string, param: string, b: string, c: string)
    requires IsSegment(a) && IsSegment(param) && IsSegment(b) && IsSegment(c)
    requires IsParameter(param) && b != param
    requires page.pattern == "/" + a + "/" + param
    ensures GetPagePermissions([page], "/" + a + "/" + b) == Some(page)
    ensures GetPagePermissions([page], "/" + a + "/" + b + "/" + c) == None
  {
    hide Segments, Normalize;
    var path, nested := "/" + a + "/" + b, "/" + a + "/" + b + "/" + c;
    TwoSegments(a, b);
    TwoSegments(a, param);
    ThreeSegments(a, b, c);
    assert page.pattern[|a| + 2] == '[';
    assert FirstMatch([page], path) == Some(page);
    assert !MatchesPathPattern(nested, page.pattern);
    assert [page][1..] == [] && [page][..0] == [];
    OtherSegmentIsNoAncestor(a, param, b, c);
    assert Ancestors([page][..0], nested) == [];
    assert SortByLength(Ancestors([page], nested)) == [];
    assert FirstMatch([page][1..], nested) == None;
  }

  // ---- what the table means ------------------------------------------------------------------

  /** Access to a page: every one of its permissions, or any one of them if there are some; and a path that no
      page is found for is open. */
  lemma AccessMeans(registry: set<string>, table: seq<Page>, path: string, granted: set<string>)
    ensures var found := GetPagePermissions(table, path);
            CanAccessPage(registry, table, path, granted) <==>
            || found.None?
            || (found.value.every
                && forall permission <- found.value.permissions :: HasPermission(registry, granted, permission))
            || (!found.value.every
                && (found.value.permissions == []
                    || exists permission <- found.value.permissions :: HasPermission(registry, granted, permission)))
  {
    hide GetPagePermissions, HasPermission;
  }

  /** So, without parameters, access is decided by the nearest declared page, which is unique. */
  lemma NearestPageDecides(registry: set<string>, table: seq<Page>, path: string, granted: set<string>, page: Page)
    requires NoParameters(table) && IsNearest(table, Normalize(path), page)
    ensures GetPagePermissions(table, path) == Some(page)
    ensures page.every ==>
              (CanAccessPage(registry, table, path, granted) <==>
               forall permission <- page.permissions :: HasPermission(registry, granted, permission))
    ensures !page.every && page.permissions != [] ==>
              (CanAccessPage(registry, table, path, granted) <==>
               exists permission <- page.permissions :: HasPermission(registry, granted, permission))
  {
    hide GetPagePermissions, HasPermission, Normalize;
    LookupIsLongestDeclared(table, path);
    AccessMeans(registry, table, path, granted);
    DeclaredFinds(table, page.pattern);
    if GetPagePermissions(table, path).Some? {
      NearestIsUnique(table, Normalize(path), page, GetPagePermissions(table, path).value);
    }
  }

  /** A parameter stands for any one segment, a literal segment for itself, and the number of segments counts. */
  lemma ParameterStandsForOneSegment(a: string, param: string, x: string, b: string, c: string)
    requires IsSegment(a) && IsSegment(param) && IsSegment(x) && IsSegment(b) && IsSegment(c)
    requires IsParameter(param) && !IsParameter(a)
    ensures MatchesPathPattern("/" + x + "/" + b, "/" + a + "/" + param) <==> x == a
    ensures !MatchesPathPattern("/" + x + "/" + b + "/" + c, "/" + a + "/" + param)
  {
    hide Segments;
    var pattern := "/" + a + "/" + param;
    TwoSegments(a, param);
    TwoSegments(x, b);
    ThreeSegments(x, b, c);
    assert pattern[|a| + 2] == '[';
    var wanted, given := Segments(pattern), Segments("/" + x + "/" + b);
    assert wanted[0] == a && wanted[1] == param && given[0] == x && given[1] == b;
  }

  /** Normalizing takes away trailing slashes and nothing else, and leaves the root. */
  lemma {:induction false} NormalizeStrips(path: string, slashes: string)
    requires path != "" && path[|path| - 1] != '/' && forall c <- slashes :: c == '/'
    ensures Normalize(path + slashes) == path && Normalize(slashes) == "/"
  {
    if slashes == "" {
      assert path + slashes == path;
    } else {
      var fewer := slashes[..|slashes| - 1];
      assert forall c <- fewer :: c in slashes;
      assert slashes[|slashes| - 1] in slashes;
      assert (path + slashes)[..|path + slashes| - 1] == path + fewer;
      NormalizeStrips(path, fewer);
    }
  }
}
