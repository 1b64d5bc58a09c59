/** What a rebuild of the `did-index` bucket guarantees, for every table, bucket and choice of flags. */
module DidIndexLaws {
  import opened Wrappers
  import opened Tokens
  import opened Streams
  import opened Kv
  import opened DidIndex

  // ---- running it again ----------------------------------------------------------------------

  /** After a completed rebuild a second one finds nothing to do, and does not stop early. */
  lemma SecondRunIsIdle(rows: seq<Row>, entries: map<string, Slot>, pruneOrphans: bool)
    requires !Crashes(rows, entries, pruneOrphans)
    ensures var after := Final(rows, entries, pruneOrphans);
            && Final(rows, after, pruneOrphans) == after
            && !Crashes(rows, after, pruneOrphans)
            && Plan(rows, after, pruneOrphans).written == 0
            && Plan(rows, after, pruneOrphans).removed == 0
            && Plan(rows, after, pruneOrphans).untouched == |Desired(rows)|
  {
    hide Desired, Contested, OwnsRows, Undialable, ContestedTokens;
    var after := Final(rows, entries, pruneOrphans);
    forall key
      ensures At(Final(rows, after, pruneOrphans), key) == At(after, key)
      ensures key in Desired(rows) ==> At(after, key) == Some(Readable(Desired(rows)[key]))
      ensures key in after && key !in Desired(rows) ==>
                Kept(rows, pruneOrphans, key, after[key]) && At(entries, key) == At(after, key)
    {
      FinalAt(rows, entries, pruneOrphans, key);
      FinalAt(rows, after, pruneOrphans, key);
    }
    SameBucket(Final(rows, after, pruneOrphans), after);
    forall key ensures key !in Stale(Desired(rows), after) {
      assert key in Desired(rows) ==> At(after, key) == Some(Readable(Desired(rows)[key]));
    }
    assert Stale(Desired(rows), after) == {};
    assert Removable(rows, after, pruneOrphans) == {};
    forall key <- after | after[key].NullJson?
      ensures key !in Desired(rows) && (Contested(rows, key) || pruneOrphans)
    {
      assert At(after, key) == Some(NullJson);
    }
  }

  /** An interrupted rebuild loses nothing: from any bucket it can have left behind, running it again
      ends where the uninterrupted run would have. */
  lemma InterruptedRunResumes(
    rows: seq<Row>, entries: map<string, Slot>, pruneOrphans: bool, partial: map<string, Slot>)
    requires Between(entries, partial, Final(rows, entries, pruneOrphans))
    ensures Final(rows, partial, pruneOrphans) == Final(rows, entries, pruneOrphans)
  {
    hide Desired, Kept, Final;
    var after := Final(rows, entries, pruneOrphans);
    forall key ensures At(Final(rows, partial, pruneOrphans), key) == At(after, key) {
      FinalAt(rows, entries, pruneOrphans, key);
      FinalAt(rows, partial, pruneOrphans, key);
      assert At(partial, key) == At(entries, key) || At(partial, key) == At(after, key);
    }
    SameBucket(Final(rows, partial, pruneOrphans), after);
  }

  // ---- the index and the table ---------------------------------------------------------------

  /** The rows a caller means by a dialled string. */
  function DialledRows(rows: seq<Row>, dialled: string): set<Row> {
    set row | row in rows && Digits(row.e164) == Digits(dialled)
  }

  predicate OneOwner(found: set<Row>) {
    forall r, s | r in found && s in found :: r.organizationId == s.organizationId
  }

  /** The inbound lookup: normalise what was dialled, read the key. */
  function Lookup(entries: map<string, Slot>, dialled: string): Option<Stored> {
    var key := DidIndexKey(dialled);
    if key.Ok? && key.value in entries && entries[key.value].Readable? then Some(entries[key.value].entry) else None
  }

  lemma LookupAt(entries: map<string, Slot>, dialled: string)
    requires Digits(dialled) != ""
    ensures var slot := At(entries, Digits(dialled));
            Lookup(entries, dialled) == if slot.Some? && slot.value.Readable? then Some(slot.value.entry) else None
  {
    DidIndexKeyIsDigits(dialled, dialled);
  }

  lemma ClaimsAreDigits(rows: seq<Row>, dialled: string)
    requires Digits(dialled) != ""
    ensures forall row <- rows :: ClaimedAs(row, Digits(dialled)) <==> row in DialledRows(rows, dialled)
    ensures Digits(dialled) in TokensOf(rows) <==> DialledRows(rows, dialled) != {}
    ensures Contested(rows, Digits(dialled)) <==> !OneOwner(DialledRows(rows, dialled))
  {
    var token, found := Digits(dialled), DialledRows(rows, dialled);
    forall row <- rows ensures ClaimedAs(row, token) <==> row in found {
      DidIndexKeyIsDigits(row.e164, dialled);
    }
    ClaimsDecide(rows, token, found);
  }

  lemma ClaimsDecide(rows: seq<Row>, token: string, found: set<Row>)
    requires forall row :: row in found <==> row in rows && ClaimedAs(row, token)
    ensures token in TokensOf(rows) <==> found != {}
    ensures Contested(rows, token) <==> !OneOwner(found)
  {
    hide DidIndexKey;
    if token in TokensOf(rows) {
      var row :| row in rows && DidIndexKey(row.e164).Ok? && DidIndexKey(row.e164).value == token;
      assert row in found;
    }
    if row :| row in found {
      assert ClaimedAs(row, token);
    }
    if Contested(rows, token) {
      var r, s :| r in rows && s in rows && ClaimedAs(r, token) && ClaimedAs(s, token)
                  && r.organizationId != s.organizationId;
      assert r in found && s in found;
    }
  }

  /** The first row of the table with those digits. */
  predicate FirstDialled(rows: seq<Row>, dialled: string, i: nat) {
    && i < |rows| && Digits(rows[i].e164) == Digits(dialled)
    && forall j | 0 <= j < i :: Digits(rows[j].e164) != Digits(dialled)
  }

  predicate FirstClaim(rows: seq<Row>, token: string, i: nat) {
    i < |rows| && ClaimedAs(rows[i], token) && forall j | 0 <= j < i :: !ClaimedAs(rows[j], token)
  }

  lemma {:induction false} FirstRowFor(rows: seq<Row>, token: string) returns (i: nat)
    requires RowsFor(rows, token) != []
    ensures FirstClaim(rows, token, i) && rows[i] == RowsFor(rows, token)[0]
  {
    hide ClaimedAs;
    var front, n := rows[..|rows| - 1], |rows| - 1;
    if RowsFor(front, token) == [] {
      i := n;
      forall j | 0 <= j < n ensures !ClaimedAs(rows[j], token) {
        assert rows[j] == front[j] && front[j] in front;
      }
    } else {
      i := FirstRowFor(front, token);
      assert forall j | 0 <= j <= i :: rows[j] == front[j];
    }
  }

  lemma FirstRowIsDialled(rows: seq<Row>, dialled: string) returns (i: nat)
    requires Digits(dialled) != "" && RowsFor(rows, Digits(dialled)) != []
    ensures FirstDialled(rows, dialled, i) && rows[i] == RowsFor(rows, Digits(dialled))[0]
  {
    hide DidIndexKey, Digits, RowsFor, ClaimedAs;
    i := FirstRowFor(rows, Digits(dialled));
    ClaimsAreDigits(rows, dialled);
    assert forall j | 0 <= j < |rows| :: rows[j] in rows;
  }

  /** The rebuilt index agrees with a scan of the table. A number that the table gives one owner resolves
      to the organization, id, number and state of the first of its rows; a contested number resolves to
      what it did before, so it neither gains nor changes an owner; a number not in the table resolves, if
      at all, to the entry it had, of an organization with no rows left, and only when orphans were not
      pruned. */
  lemma IndexAgreesWithScan(rows: seq<Row>, entries: map<string, Slot>, pruneOrphans: bool, dialled: string)
    requires Digits(dialled) != ""
    ensures var found := DialledRows(rows, dialled);
            var before, after := Lookup(entries, dialled), Lookup(Final(rows, entries, pruneOrphans), dialled);
            && (found != {} && OneOwner(found) ==>
                  && after.Some?
                  && exists i: nat ::
                       && FirstDialled(rows, dialled, i)
                       && after.value.organizationId == Some(rows[i].organizationId)
                       && after.value.phoneNumberId == Some(rows[i].id)
                       && after.value.e164 == Some(rows[i].e164)
                       && after.value.enabled == Some(rows[i].enabled))
            && (!OneOwner(found) ==> after == before)
            && (found == {} && after.Some? ==>
                  after == before && !pruneOrphans && !OwnsRows(rows, after.value.organizationId))
  {
    hide DidIndexKey, Digits, Lookup, Final, Desired, Contested, TokensOf, OwnsRows, ContestedTokens;
    var key, found := Digits(dialled), DialledRows(rows, dialled);
    ClaimsAreDigits(rows, dialled);
    LookupAt(entries, dialled);
    LookupAt(Final(rows, entries, pruneOrphans), dialled);
    KeyOutcome(rows, entries, pruneOrphans, key);
    if found != {} && OneOwner(found) {
      DesiredAt(rows, key);
      ContestedKey(rows, key);
      var i := FirstRowIsDialled(rows, dialled);
      assert Lookup(Final(rows, entries, pruneOrphans), dialled) == Some(EntryOf(rows[i]));
    }
  }

  lemma KeyOutcome(rows: seq<Row>, entries: map<string, Slot>, pruneOrphans: bool, key: string)
    ensures var before, after := At(entries, key), At(Final(rows, entries, pruneOrphans), key);
            && (key in Desired(rows) ==> after == Some(Readable(Desired(rows)[key])))
            && (Contested(rows, key) ==>
                  key !in Desired(rows) && after == if before == Some(Unreadable) then None else before)
            && (key !in TokensOf(rows) && after.Some? ==>
                  after == before && after.value.Readable? && !pruneOrphans
                  && !OwnsRows(rows, after.value.entry.organizationId))
            && (key !in TokensOf(rows) && before.Some? && before.value.Readable? ==>
                  (after == before <==>
                   !pruneOrphans
                   && forall row <- rows :: before.value.entry.organizationId != Some(row.organizationId)))
  {
    hide DidIndexKey;
    FinalAt(rows, entries, pruneOrphans, key);
    ContestedKey(rows, key);
  }

  // ---- row order -----------------------------------------------------------------------------

  lemma SameRows(rows: seq<Row>, other: seq<Row>)
    requires multiset(rows) == multiset(other)
    ensures forall row :: row in rows <==> row in other
  {
    forall row ensures row in rows <==> row in other {
      assert row in rows <==> row in multiset(rows);
      assert row in other <==> row in multiset(other);
    }
  }

  lemma {:induction false} UndialableConcat(a: seq<Row>, b: seq<Row>)
    ensures Undialable(a + b) == Undialable(a) + Undialable(b)
  {
    hide DidIndexKey;
    if b == [] {
      assert a + b == a;
    } else {
      var front, last := b[..|b| - 1], b[|b| - 1];
      UndialableConcat(a, front);
      assert (a + b)[..|a + b| - 1] == a + front && (a + b)[|a + b| - 1] == last;
    }
  }

  lemma WithoutOne(rows: seq<Row>, other: seq<Row>, j: nat)
    requires rows != [] && multiset(rows) == multiset(other)
    requires j < |other| && other[j] == rows[|rows| - 1]
    ensures multiset(rows[..|rows| - 1]) == multiset(other[..j] + other[j + 1..])
  {
    var front, last, left, right := rows[..|rows| - 1], rows[|rows| - 1], other[..j], other[j + 1..];
    assert rows == front + [last];
    assert other == left + [last] + right;
    assert multiset(rows) == multiset(front) + multiset{last};
    assert multiset(other) == multiset(left) + multiset{last} + multiset(right);
    assert multiset(front) == multiset(rows) - multiset{last};
    assert multiset(left + right) == multiset(other) - multiset{last};
  }

  lemma {:induction false} UndialableOfPermutation(rows: seq<Row>, other: seq<Row>)
    requires multiset(rows) == multiset(other)
    ensures Undialable(rows) == Undialable(other)
  {
    hide DidIndexKey;
    if rows == [] {
      assert |multiset(other)| == 0;
    } else {
      var front, last := rows[..|rows| - 1], rows[|rows| - 1];
      SameRows(rows, other);
      assert last in rows;
      var j :| 0 <= j < |other| && other[j] == last;
      var left, right := other[..j], other[j + 1..];
      WithoutOne(rows, other, j);
      UndialableOfPermutation(front, left + right);
      hide Undialable;
      assert rows == front + [last] && other == left + [last] + right;
      UndialableConcat(left, right);
      UndialableConcat(left + [last], right);
      UndialableConcat(left, [last]);
      UndialableConcat(front, [last]);
    }
  }

  /** The order the table is read in decides at most which of an owner's own rows an entry shows. Every
      key outside the desired ones ends the same, and the desired ones have the same owner. */
  lemma RowOrderIsImmaterial(rows: seq<Row>, other: seq<Row>, entries: map<string, Slot>, pruneOrphans: bool)
    requires multiset(rows) == multiset(other)
    ensures Desired(rows).Keys == Desired(other).Keys
    ensures forall key <- Desired(rows) :: Desired(rows)[key].organizationId == Desired(other)[key].organizationId
    ensures forall key | key !in Desired(rows) ::
              At(Final(rows, entries, pruneOrphans), key) == At(Final(other, entries, pruneOrphans), key)
  {
    hide DidIndexKey, Desired, Contested, Kept, TokensOf, Removable, ContestedTokens, Final;
    SameRows(rows, other);
    SameDesired(rows, other);
    SameVerdicts(rows, other, entries, pruneOrphans);
    forall key | key !in Desired(rows)
      ensures At(Final(rows, entries, pruneOrphans), key) == At(Final(other, entries, pruneOrphans), key)
    {
      FinalAt(rows, entries, pruneOrphans, key);
      FinalAt(other, entries, pruneOrphans, key);
    }
  }

  /** Nor do the counts of removals, conflicts and failures depend on it, nor whether the run completes. */
  lemma RowOrderKeepsCounts(rows: seq<Row>, other: seq<Row>, entries: map<string, Slot>, pruneOrphans: bool)
    requires multiset(rows) == multiset(other)
    ensures var one, two := Plan(rows, entries, pruneOrphans), Plan(other, entries, pruneOrphans);
            one.removed == two.removed && one.conflicts == two.conflicts && one.failures == two.failures
    ensures Crashes(rows, entries, pruneOrphans) <==> Crashes(other, entries, pruneOrphans)
  {
    hide DidIndexKey, Desired, Contested, Undialable, TokensOf, Removable, ContestedTokens, Stale;
    SameRows(rows, other);
    SameClaims(rows, other);
    SameDesired(rows, other);
    SameVerdicts(rows, other, entries, pruneOrphans);
    UndialableOfPermutation(rows, other);
  }

  lemma SameVerdicts(rows: seq<Row>, other: seq<Row>, entries: map<string, Slot>, pruneOrphans: bool)
    requires forall row :: row in rows <==> row in other
    ensures forall key, slot :: Kept(rows, pruneOrphans, key, slot) <==> Kept(other, pruneOrphans, key, slot)
    ensures Removable(rows, entries, pruneOrphans) == Removable(other, entries, pruneOrphans)
    ensures ContestedTokens(rows) == ContestedTokens(other)
  {
    SameClaims(rows, other);
    SameDesired(rows, other);
    hide DidIndexKey, Desired, Contested, TokensOf, OwnsRows;
  }

  lemma SameClaims(rows: seq<Row>, other: seq<Row>)
    requires forall row :: row in rows <==> row in other
    ensures TokensOf(rows) == TokensOf(other)
    ensures forall token :: Contested(rows, token) <==> Contested(other, token)
    ensures forall organizationId :: OwnsRows(rows, organizationId) <==> OwnsRows(other, organizationId)
  {
    hide DidIndexKey;
  }

  lemma SameDesired(rows: seq<Row>, other: seq<Row>)
    requires forall row :: row in rows <==> row in other
    ensures Desired(rows).Keys == Desired(other).Keys
    ensures forall key <- Desired(rows) :: Desired(rows)[key].organizationId == Desired(other)[key].organizationId
  {
    hide DidIndexKey;
    SameClaims(rows, other);
    forall key
      ensures key in Desired(rows) <==> key in Desired(other)
      ensures key in Desired(rows) ==> Desired(rows)[key].organizationId == Desired(other)[key].organizationId
    {
      if key in TokensOf(rows) {
        DesiredAt(rows, key);
        DesiredAt(other, key);
        var r, s := RowsFor(rows, key)[0], RowsFor(other, key)[0];
        assert r in RowsFor(rows, key) && s in RowsFor(other, key);
      }
    }
  }
}
