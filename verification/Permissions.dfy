/** The web app's reading of the permission registry: grants and their scopes, and the permissions a
    membership role resolves to. The registry and the role templates are parameters. */
module Permissions {
  import opened Wrappers
  import opened Text
  import opened Kv

  // ---- grants --------------------------------------------------------------------------------

  /** `<resource>.<action>` of a permission; missing parts are empty. */
  function Unscoped(permission: string): string {
    var parts := Split(permission, '.');
    parts[0] + "." + (if |parts| > 1 then parts[1] else "")
  }

  predicate Scoped(permission: string) {
    |Split(permission, '.')| > 2
  }

  /** A grant covers itself and, without its scope, every registered scope of its action. */
  predicate HasPermission(registry: set<string>, granted: set<string>, required: string) {
    if required in granted then true
    else if required !in registry then false
    else Scoped(required) && Unscoped(required) in granted
  }

  predicate HasEveryPermission(registry: set<string>, granted: set<string>, required: seq<string>) {
    forall permission <- required :: HasPermission(registry, granted, permission)
  }

  predicate HasAnyPermission(registry: set<string>, granted: set<string>, required: seq<string>) {
    required == [] || exists permission <- required :: HasPermission(registry, granted, permission)
  }

  /** A scope is held by holding it or, if it is registered, by holding its action, and in no other way; an
      unscoped permission only by holding it. The scope may have dots in it. */
  lemma ScopesAreImplied(registry: set<string>, granted: set<string>, action: string, scope: string)
    requires |Split(action, '.')| == 2
    ensures var scoped := action + "." + scope;
            HasPermission(registry, granted, scoped) <==> scoped in granted || (scoped in registry && action in granted)
    ensures HasPermission(registry, granted, action) <==> action in granted
  {
    SplitConcat(action, scope, '.');
    var parts := Split(action, '.');
    JoinSplit(action, '.');
    assert Join(parts[1..], '.') == parts[1];
    assert action == parts[0] + "." + parts[1];
    var whole := Split(action + "." + scope, '.');
    assert whole[0] == parts[0] && whole[1] == parts[1];
  }

  // ---- role templates ------------------------------------------------------------------------

  datatype Template = Template(id: string, membershipRole: string, permissions: seq<string>)

  /** Per membership role, the template the loop ends with. */
  function Least(templates: seq<Template>): map<string, Template> {
    if templates == [] then map[]
    else
      var rest, last := Least(templates[..|templates| - 1]), templates[|templates| - 1];
      if last.membershipRole !in rest || |last.permissions| < |rest[last.membershipRole].permissions|
      then rest[last.membershipRole := last]
      else rest
  }

  method LeastPrivilegedByMembershipRole(templates: seq<Template>) returns (least: map<string, Template>)
    ensures least == Least(templates)
  {
    least := map[];
    for i := 0 to |templates|
      invariant least == Least(templates[..i])
    {
      assert templates[..i + 1][..i] == templates[..i] && templates[..i + 1][i] == templates[i];
      var template := templates[i];
      if template.membershipRole !in least
         || |template.permissions| < |least[template.membershipRole].permissions| {
        least := least[template.membershipRole := template];
      }
    }
    assert templates[..|templates|] == templates;
  }

  /** Of the templates for `role`, the one at `i` has the fewest permissions, and is the first to. */
  predicate EarliestFewest(templates: seq<Template>, role: string, i: int) {
    && 0 <= i < |templates|
    && templates[i].membershipRole == role
    && (forall j | 0 <= j < i :: templates[j].membershipRole == role ==>
          |templates[i].permissions| < |templates[j].permissions|)
    && (forall j | i <= j < |templates| :: templates[j].membershipRole == role ==>
          |templates[i].permissions| <= |templates[j].permissions|)
  }

  /** A bare membership role falls back to the earliest of its least privileged templates, and only a role
      no template has falls back to none. */
  lemma {:induction false} FallbackIsLeastPrivileged(templates: seq<Template>, role: string)
    ensures role in Least(templates) ==>
              exists i :: EarliestFewest(templates, role, i) && Least(templates)[role] == templates[i]
    ensures role !in Least(templates) ==> forall template <- templates :: template.membershipRole != role
  {
    if templates == [] {
    } else {
      var front, last := templates[..|templates| - 1], templates[|templates| - 1];
      FallbackIsLeastPrivileged(front, role);
      assert templates == front + [last];
      if && last.membershipRole == role && Least(templates)[role] == last
         && (role !in Least(front) || Least(front)[role] != last) {
        if role in Least(front) {
          var i :| EarliestFewest(front, role, i) && Least(front)[role] == front[i];
          assert forall j | 0 <= j < |front| ::
              front[j].membershipRole == role ==> |last.permissions| < |front[j].permissions|;
        }
        assert EarliestFewest(templates, role, |templates| - 1);
      } else if role in Least(front) {
        var i :| EarliestFewest(front, role, i) && Least(front)[role] == front[i];
        assert templates[i] == front[i];
        assert EarliestFewest(templates, role, i);
      }
    }
  }

  /** `new Map(entries)`: of two templates with one id the later is found. */
  function ById(templates: seq<Template>): map<string, Template> {
    if templates == [] then map[]
    else
      var last := templates[|templates| - 1];
      ById(templates[..|templates| - 1])[last.id := last]
  }

  function ResolveTemplate(templates: seq<Template>, role: string): Option<Template> {
    var normalized := Lower(Trim(role));
    if normalized == "" then None
    else if normalized in ById(templates) then Some(ById(templates)[normalized])
    else At(Least(templates), normalized)
  }

  lemma {:induction false} ByIdFindsLast(templates: seq<Template>, id: string)
    ensures id in ById(templates) ==>
              exists i | 0 <= i < |templates| :: LastWithId(templates, id, i) && ById(templates)[id] == templates[i]
    ensures id !in ById(templates) ==> forall template <- templates :: template.id != id
  {
    if templates == [] {
    } else {
      var front, n := templates[..|templates| - 1], |templates| - 1;
      ByIdFindsLast(front, id);
      assert templates == front + [templates[n]];
      if templates[n].id == id {
        assert LastWithId(templates, id, n);
      } else if id in ById(front) {
        var i :| 0 <= i < |front| && LastWithId(front, id, i) && ById(front)[id] == front[i];
        assert LastWithId(templates, id, i) && templates[i] == front[i];
      }
    }
  }

  /** The last template with that id. Ids are unique in the registry. */
  predicate LastWithId(templates: seq<Template>, id: string, i: int) {
    && 0 <= i < |templates| && templates[i].id == id
    && forall j | i < j < |templates| :: templates[j].id != id
  }

  // ---- effective permissions -----------------------------------------------------------------

  function Elements(permissions: seq<string>): set<string> {
    set permission | permission in permissions
  }

  lemma ElementsAppend(permissions: seq<string>, permission: string)
    ensures Elements(permissions + [permission]) == Elements(permissions) + {permission}
  {
  }

  function PermissionsOf(template: Option<Template>): set<string> {
    if template.None? then {} else Elements(template.value.permissions)
  }

  function GrantedByParts(templates: seq<Template>, parts: seq<string>): set<string> {
    if parts == [] then {}
    else
      GrantedByParts(templates, parts[..|parts| - 1]) + PermissionsOf(ResolveTemplate(templates, parts[|parts| - 1]))
  }

  /** What a stored role grants: the union over its comma-separated parts. */
  function Granted(templates: seq<Template>, role: string): set<string> {
    GrantedByParts(templates, Split(role, ','))
  }

  lemma OnePart(templates: seq<Template>, part: string)
    ensures GrantedByParts(templates, [part]) == PermissionsOf(ResolveTemplate(templates, part))
  {
    hide ResolveTemplate, PermissionsOf;
    var parts := [part];
    assert parts[..|parts| - 1] == [];
    assert GrantedByParts(templates, []) == {};
  }

  /** The nested loops collect exactly that union, each permission once. */
  method ResolveRolePermissions(templates: seq<Template>, role: Option<string>) returns (granted: seq<string>)
    ensures NoDuplicates(granted)
    ensures Elements(granted) == if role.None? then {} else Granted(templates, role.value)
  {
    granted := [];
    if role.None? || role.value == "" {
      OnePart(templates, "");
      assert Split("", ',') == [""];
      return;
    }
    var parts := Split(role.value, ',');
    for i := 0 to |parts|
      invariant NoDuplicates(granted)
      invariant Elements(granted) == GrantedByParts(templates, parts[..i])
    {
      assert parts[..i + 1][..i] == parts[..i] && parts[..i + 1][i] == parts[i];
      var template := ResolveTemplate(templates, parts[i]);
      if template.None? {
        continue;
      }
      granted := AddAll(granted, template.value.permissions);
    }
    assert parts[..|parts|] == parts;
  }

  method AddAll(granted: seq<string>, permissions: seq<string>) returns (more: seq<string>)
    requires NoDuplicates(granted)
    ensures NoDuplicates(more)
    ensures Elements(more) == Elements(granted) + Elements(permissions)
  {
    more := granted;
    for i := 0 to |permissions|
      invariant NoDuplicates(more)
      invariant Elements(more) == Elements(granted) + Elements(permissions[..i])
    {
      assert permissions[..i + 1] == permissions[..i] + [permissions[i]];
      ElementsAppend(permissions[..i], permissions[i]);
      ElementsAppend(more, permissions[i]);
      if permissions[i] !in more {
        AppendNoDuplicates(more, permissions[i]);
        more := more + [permissions[i]];
      }
    }
    assert permissions[..|permissions|] == permissions;
  }

  lemma {:induction false} GrantedByPartsConcat(templates: seq<Template>, a: seq<string>, b: seq<string>)
    ensures GrantedByParts(templates, a + b) == GrantedByParts(templates, a) + GrantedByParts(templates, b)
  {
    hide ResolveTemplate, PermissionsOf;
    if b == [] {
      assert a + b == a;
    } else {
      var front, last := b[..|b| - 1], b[|b| - 1];
      GrantedByPartsConcat(templates, a, front);
      assert (a + b)[..|a + b| - 1] == a + front && (a + b)[|a + b| - 1] == last;
    }
  }

  /** Holding two roles grants exactly what holding each grants. */
  lemma RolesGrantTheirUnion(templates: seq<Template>, a: string, b: string)
    ensures Granted(templates, a + "," + b) == Granted(templates, a) + Granted(templates, b)
  {
    SplitConcat(a, b, ',');
    GrantedByPartsConcat(templates, Split(a, ','), Split(b, ','));
  }

  /** A part that names no template, and no list of them, adds nothing. */
  lemma UnknownRoleAddsNothing(templates: seq<Template>, a: string, unknown: string)
    requires ',' !in unknown && ResolveTemplate(templates, unknown).None?
    ensures Granted(templates, unknown) == {}
    ensures Granted(templates, a + "," + unknown) == Granted(templates, a)
  {
    hide ResolveTemplate;
    SplitAtom(unknown, ',');
    OnePart(templates, unknown);
    RolesGrantTheirUnion(templates, a, unknown);
  }

  /** What one role grants, up to case and surrounding space: if it names a template, that template's
      permissions; if it is a membership role only, those of the earliest of its least privileged templates;
      and nothing otherwise. */
  lemma OneRoleGrants(templates: seq<Template>, role: string, i: int)
    requires ',' !in role && Lower(Trim(role)) != ""
    ensures LastWithId(templates, Lower(Trim(role)), i) ==>
              Granted(templates, role) == Elements(templates[i].permissions)
    ensures (forall template <- templates :: template.id != Lower(Trim(role)))
            && EarliestFewest(templates, Lower(Trim(role)), i) ==>
              Granted(templates, role) == Elements(templates[i].permissions)
    ensures (forall template <- templates ::
               template.id != Lower(Trim(role)) && template.membershipRole != Lower(Trim(role))) ==>
              Granted(templates, role) == {}
  {
    hide ById, Least, Lower, Trim;
    var name := Lower(Trim(role));
    SplitAtom(role, ',');
    OnePart(templates, role);
    ByIdFindsLast(templates, name);
    FallbackIsLeastPrivileged(templates, name);
    if name in ById(templates) {
      var j :| 0 <= j < |templates| && LastWithId(templates, name, j) && ById(templates)[name] == templates[j];
      assert LastWithId(templates, name, i) ==> i == j;
      assert templates[j] in templates;
    } else if name in Least(templates) {
      var j :| EarliestFewest(templates, name, j) && Least(templates)[name] == templates[j];
      assert EarliestFewest(templates, name, i) ==> i == j;
      assert templates[j] in templates;
    }
  }
}
