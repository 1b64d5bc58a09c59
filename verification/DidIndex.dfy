/** The rebuild of the `did-index` bucket from the `phone_number` table: which number belongs to which
    organization, reconciled against whatever the bucket holds. */
module DidIndex {
  import opened Wrappers
  import opened Matching
  import opened Streams
  import opened Kv

  datatype Row = Row(organizationId: string, id: string, e164: string, enabled: bool)

  /** What a stored JSON object says of the four fields the script reads; a field that is missing, or not
      of its type, is None. */
  datatype Stored = Stored(
    organizationId: Option<string>, phoneNumberId: Option<string>, e164: Option<string>, enabled: Option<bool>)

  /** What a key of the bucket holds: nothing that parses, the JSON null, or some other JSON value. */
  datatype Slot = Unreadable | NullJson | Readable(entry: Stored)

  datatype Report = Report(written: nat, untouched: nat, removed: nat, conflicts: nat, failures: nat)

  // ---- the table scan ------------------------------------------------------------------------

  predicate ClaimedAs(row: Row, token: string) {
    DidIndexKey(row.e164) == Ok(token)
  }

  /** The rows that claim a token, in table order. */
  function RowsFor(rows: seq<Row>, token: string): (r: seq<Row>)
    ensures forall row :: row in r <==> row in rows && ClaimedAs(row, token)
  {
    if rows == [] then []
    else
      var last := rows[|rows| - 1];
      RowsFor(rows[..|rows| - 1], token) + (if ClaimedAs(last, token) then [last] else [])
  }

  function TokensOf(rows: seq<Row>): set<string> {
    set row | row in rows && DidIndexKey(row.e164).Ok? :: DidIndexKey(row.e164).value
  }

  /** Two organizations claim the number. */
  predicate Contested(rows: seq<Row>, token: string) {
    exists r, s | r in rows && s in rows ::
      ClaimedAs(r, token) && ClaimedAs(s, token) && r.organizationId != s.organizationId
  }

  function ContestedTokens(rows: seq<Row>): set<string> {
    set token | token in TokensOf(rows) && Contested(rows, token)
  }

  function Undialable(rows: seq<Row>): nat {
    if rows == [] then 0
    else Undialable(rows[..|rows| - 1]) + (if DidIndexKey(rows[|rows| - 1].e164).Err? then 1 else 0)
  }

  function EntryOf(row: Row): Stored {
    Stored(Some(row.organizationId), Some(row.id), Some(row.e164), Some(row.enabled))
  }

  /** The entry every uncontested number should have: the one of its first row. */
  function Desired(rows: seq<Row>): map<string, Stored> {
    map token | token in TokensOf(rows) && !Contested(rows, token) && RowsFor(rows, token) != [] ::
      EntryOf(RowsFor(rows, token)[0])
  }

  predicate OwnsRows(rows: seq<Row>, organizationId: Option<string>) {
    organizationId.Some? && exists row <- rows :: row.organizationId == organizationId.value
  }

  // ---- the outcome ---------------------------------------------------------------------------

  /** An entry under a key outside the desired ones that the rebuild leaves alone. */
  predicate Kept(rows: seq<Row>, pruneOrphans: bool, key: string, slot: Slot) {
    && !slot.Unreadable?
    && (|| Contested(rows, key)
        || (!pruneOrphans && slot.Readable? && !OwnsRows(rows, slot.entry.organizationId)))
  }

  /** The desired keys that do not already hold their entry. */
  function Stale(desired: map<string, Stored>, entries: map<string, Slot>): set<string> {
    set key | key in desired && !(key in entries && entries[key] == Readable(desired[key]))
  }

  function Removable(rows: seq<Row>, entries: map<string, Slot>, pruneOrphans: bool): set<string> {
    set key | key in entries && key !in Desired(rows) && !Kept(rows, pruneOrphans, key, entries[key])
  }

  function Overlay(entries: map<string, Slot>, desired: map<string, Stored>): map<string, Slot> {
    entries + map key | key in desired :: Readable(desired[key])
  }

  /** The bucket a completed rebuild leaves. */
  function Final(rows: seq<Row>, entries: map<string, Slot>, pruneOrphans: bool): map<string, Slot> {
    Overlay(entries, Desired(rows)) - Removable(rows, entries, pruneOrphans)
  }

  /** The counts a completed rebuild reports, dry or not. */
  function Plan(rows: seq<Row>, entries: map<string, Slot>, pruneOrphans: bool): Report {
    var stale := |Stale(Desired(rows), entries)|;
    var conflicts := |ContestedTokens(rows)|;
    StaleAmongDesired(Desired(rows), entries);
    Report(stale, |Desired(rows)| - stale, |Removable(rows, entries, pruneOrphans)|, conflicts,
           Undialable(rows) + conflicts)
  }

  lemma StaleAmongDesired(desired: map<string, Stored>, entries: map<string, Slot>)
    ensures Stale(desired, entries) <= desired.Keys
    ensures |Stale(desired, entries)| <= |desired|
  {
    SubsetSize(Stale(desired, entries), desired.Keys);
  }

  /** The script reads a field of the stored value without a null check: of every desired key, and of an
      undesired one that is not contested unless orphans are pruned. */
  predicate Crashes(rows: seq<Row>, entries: map<string, Slot>, pruneOrphans: bool) {
    exists key <- entries ::
      entries[key].NullJson? && (key in Desired(rows) || (!Contested(rows, key) && !pruneOrphans))
  }

  /** Every key holds what it held before or what it will hold at the end. */
  ghost predicate Between(before: map<string, Slot>, now: map<string, Slot>, after: map<string, Slot>) {
    forall key :: At(now, key) == At(before, key) || At(now, key) == At(after, key)
  }

  // ---- the script ----------------------------------------------------------------------------

  lemma ScanStep(rows: seq<Row>, row: Row)
    ensures TokensOf(rows + [row])
         == TokensOf(rows) + (if DidIndexKey(row.e164).Ok? then {DidIndexKey(row.e164).value} else {})
    ensures forall token ::
              RowsFor(rows + [row], token) == RowsFor(rows, token) + (if ClaimedAs(row, token) then [row] else [])
    ensures Undialable(rows + [row]) == Undialable(rows) + (if DidIndexKey(row.e164).Err? then 1 else 0)
  {
    hide DidIndexKey;
    var more := rows + [row];
    assert more[..|more| - 1] == rows && more[|more| - 1] == row;
    assert forall r :: r in more <==> r in rows || r == row;
  }

  lemma UnclaimedHasNoRows(rows: seq<Row>, token: string)
    ensures RowsFor(rows, token) == [] <==> token !in TokensOf(rows)
  {
    hide DidIndexKey;
    if RowsFor(rows, token) != [] {
      assert RowsFor(rows, token)[0] in rows;
    }
    if token in TokensOf(rows) {
      var row :| row in rows && DidIndexKey(row.e164).Ok? && DidIndexKey(row.e164).value == token;
      assert row in RowsFor(rows, token);
    }
  }

  lemma ScanEmpty()
    ensures TokensOf([]) == {} && Undialable([]) == 0
    ensures Lists([], {})
  {
  }

  method GroupByToken(rows: seq<Row>) returns (byToken: map<string, seq<Row>>, order: seq<string>, failures: nat)
    ensures byToken.Keys == TokensOf(rows)
    ensures forall token <- byToken :: byToken[token] == RowsFor(rows, token)
    ensures Lists(order, byToken.Keys)
    ensures failures == Undialable(rows)
  {
    hide DidIndexKey, TokensOf, RowsFor, Undialable, Lists;
    byToken, order, failures := map[], [], 0;
    ScanEmpty();
    assert rows[..0] == [];
    for i := 0 to |rows|
      invariant byToken.Keys == TokensOf(rows[..i])
      invariant forall token <- byToken :: byToken[token] == RowsFor(rows[..i], token)
      invariant Lists(order, byToken.Keys)
      invariant failures == Undialable(rows[..i])
    {
      var row := rows[i];
      ScanStep(rows[..i], row);
      assert rows[..i + 1] == rows[..i] + [row];
      var token := DidIndexKey(row.e164);
      if token.Err? {
        failures := failures + 1;
        continue;
      }
      var key := token.value;
      var keys := byToken.Keys;
      if key in byToken {
        byToken := byToken[key := byToken[key] + [row]];
        assert byToken.Keys == keys;
      } else {
        UnclaimedHasNoRows(rows[..i], key);
        ListsAppend(order, keys, key);
        byToken := byToken[key := [row]];
        order := order + [key];
        assert byToken.Keys == keys + {key};
      }
    }
    assert rows[..|rows|] == rows;
  }

  function Owners(claimants: seq<Row>): set<string> {
    set row | row in claimants :: row.organizationId
  }

  lemma SeveralOwners(claimants: seq<Row>)
    ensures |Owners(claimants)| > 1 <==>
            exists r, s | r in claimants && s in claimants :: r.organizationId != s.organizationId
  {
    var owners := Owners(claimants);
    if r, s :| r in claimants && s in claimants && r.organizationId != s.organizationId {
      SubsetSize({r.organizationId, s.organizationId}, owners);
    } else if claimants != [] {
      assert owners == {claimants[0].organizationId};
    }
  }

  lemma ContestedByClaimants(rows: seq<Row>, token: string)
    ensures Contested(rows, token) <==> |Owners(RowsFor(rows, token))| > 1
  {
    hide ClaimedAs, RowsFor;
    var claimants := RowsFor(rows, token);
    SeveralOwners(claimants);
    if Contested(rows, token) {
      var r, s :| r in rows && s in rows && ClaimedAs(r, token) && ClaimedAs(s, token)
                  && r.organizationId != s.organizationId;
      assert r in claimants && s in claimants;
    }
  }

  method FindContested(rows: seq<Row>, byToken: map<string, seq<Row>>, order: seq<string>)
    returns (contested: set<string>)
    requires byToken.Keys == TokensOf(rows) && Lists(order, byToken.Keys)
    requires forall token <- byToken :: byToken[token] == RowsFor(rows, token)
    ensures contested == ContestedTokens(rows)
  {
    hide DidIndexKey, Owners, RowsFor, Contested;
    contested := {};
    for i := 0 to |order|
      invariant contested == set token | token in order[..i] && Contested(rows, token)
    {
      var token := order[i];
      ContestedByClaimants(rows, token);
      if |Owners(byToken[token])| > 1 {
        contested := contested + {token};
      }
      assert order[..i + 1] == order[..i] + [token];
    }
    assert order[..|order|] == order;
  }

  lemma DesiredAt(rows: seq<Row>, token: string)
    requires token in TokensOf(rows)
    ensures token in Desired(rows) <==> token !in ContestedTokens(rows)
    ensures RowsFor(rows, token) != []
    ensures token in Desired(rows) ==> Desired(rows)[token] == EntryOf(RowsFor(rows, token)[0])
  {
    hide DidIndexKey;
    UnclaimedHasNoRows(rows, token);
  }

  method ChooseDesired(rows: seq<Row>, byToken: map<string, seq<Row>>, order: seq<string>, contested: set<string>)
    returns (desired: map<string, Stored>, desiredOrder: seq<string>)
    requires byToken.Keys == TokensOf(rows) && Lists(order, byToken.Keys)
    requires forall token <- byToken :: byToken[token] == RowsFor(rows, token)
    requires contested == ContestedTokens(rows)
    ensures desired == Desired(rows)
    ensures Lists(desiredOrder, desired.Keys)
  {
    hide DidIndexKey, RowsFor, ContestedTokens, Contested, NoDuplicates;
    desired, desiredOrder := map[], [];
    ScanEmpty();
    assert desired.Keys == {};
    for i := 0 to |order|
      invariant Lists(desiredOrder, desired.Keys)
      invariant forall token :: token in desired <==> token in order[..i] && token in Desired(rows)
      invariant forall token <- desired :: desired[token] == Desired(rows)[token]
    {
      var token := order[i];
      NextKey(order, i);
      DesiredAt(rows, token);
      if token !in contested {
        ListsAppend(desiredOrder, desired.Keys, token);
        desired := desired[token := EntryOf(byToken[token][0])];
        desiredOrder := desiredOrder + [token];
      }
    }
    assert order[..|order|] == order;
    assert forall token <- Desired(rows) :: token in order;
  }

  /** The bucket after the entries of `keys` have been put. */
  function Written(entries: map<string, Slot>, desired: map<string, Stored>, keys: seq<string>): map<string, Slot>
    requires forall key <- keys :: key in desired
  {
    if keys == [] then entries
    else
      var last := keys[|keys| - 1];
      Written(entries, desired, keys[..|keys| - 1])[last := Readable(desired[last])]
  }

  lemma {:induction false} WrittenAt(
    entries: map<string, Slot>, desired: map<string, Stored>, keys: seq<string>, key: string)
    requires forall k <- keys :: k in desired
    ensures At(Written(entries, desired, keys), key)
         == if key in keys then Some(Readable(desired[key])) else At(entries, key)
  {
    if keys == [] {
    } else {
      var last := keys[|keys| - 1];
      WrittenAt(entries, desired, keys[..|keys| - 1], key);
      assert keys == keys[..|keys| - 1] + [last];
    }
  }

  predicate HoldsNull(entries: map<string, Slot>, key: string) {
    key in entries && entries[key].NullJson?
  }

  /** One more key of the desired map. */
  lemma WriteStep(entries: map<string, Slot>, desired: map<string, Stored>, keys: seq<string>, i: nat)
    requires i < |keys| && Lists(keys, desired.Keys)
    ensures At(Written(entries, desired, keys[..i]), keys[i]) == At(entries, keys[i])
    ensures Written(entries, desired, keys[..i + 1])
         == if keys[i] in Stale(desired, entries)
            then Written(entries, desired, keys[..i])[keys[i] := Readable(desired[keys[i]])]
            else Written(entries, desired, keys[..i])
    ensures CountIn(keys[..i + 1], Stale(desired, entries))
         == CountIn(keys[..i], Stale(desired, entries)) + (if keys[i] in Stale(desired, entries) then 1 else 0)
    ensures keys[i] in Stale(desired, entries) <==> At(entries, keys[i]) != Some(Readable(desired[keys[i]]))
    ensures keys[..i + 1] == keys[..i] + [keys[i]]
  {
    NextKey(keys, i);
    WrittenAt(entries, desired, keys[..i], keys[i]);
  }

  lemma WriteStart(entries: map<string, Slot>, desired: map<string, Stored>)
    ensures Written(entries, desired, []) == entries && CountIn([], Stale(desired, entries)) == 0
  {
  }

  method WriteDesired(bucket: Bucket<Slot>, desired: map<string, Stored>, order: seq<string>, dryRun: bool)
    returns (written: nat, untouched: nat, crashed: bool, ghost n: nat)
    requires bucket.Valid() && Lists(order, desired.Keys)
    modifies bucket
    ensures bucket.Valid()
    ensures crashed <==> exists key <- desired :: HoldsNull(old(bucket.entries), key)
    ensures !crashed ==> written == |Stale(desired, old(bucket.entries))| && written + untouched == |desired|
    ensures dryRun ==> bucket.entries == old(bucket.entries)
    ensures n <= |order| && (!crashed ==> n == |order|)
    ensures !dryRun ==> bucket.entries == Written(old(bucket.entries), desired, order[..n])
  {
    hide Without, Written, CountIn, Stale;
    written, untouched := 0, 0;
    ghost var before := bucket.entries;
    ghost var stale := Stale(desired, before);
    WriteStart(before, desired);
    assert order[..0] == [];
    for i := 0 to |order|
      invariant bucket.Valid()
      invariant written == CountIn(order[..i], stale) && written + untouched == i
      invariant forall key <- order[..i] :: !HoldsNull(before, key)
      invariant bucket.entries == if dryRun then before else Written(before, desired, order[..i])
    {
      var key := order[i];
      WriteStep(before, desired, order, i);
      var entry := desired[key];
      if key in bucket.entries && bucket.entries[key] == Readable(entry) {
        untouched := untouched + 1;
        continue;
      }
      if key in bucket.entries && bucket.entries[key].NullJson? {
        return written, untouched, true, i;
      }
      if !dryRun {
        bucket.Put(key, Readable(entry));
      }
      written := written + 1;
    }
    StaleAmongDesired(desired, before);
    CountAll(order, desired.Keys, stale);
    assert order[..|order|] == order;
    crashed, n := false, |order|;
  }

  /** Where the removal loop reads a field of a null. */
  predicate TripsOn(rows: seq<Row>, pruneOrphans: bool, entries: map<string, Slot>, key: string) {
    HoldsNull(entries, key) && key !in Desired(rows) && !Contested(rows, key) && !pruneOrphans
  }

  datatype Fate = Keep | Drop | Trip

  /** The body of the removal loop up to the delete. */
  method Examine(
    rows: seq<Row>, desired: map<string, Stored>, contested: set<string>, pruneOrphans: bool,
    key: string, existing: Slot, ghost entries: map<string, Slot>)
    returns (fate: Fate)
    requires desired == Desired(rows) && contested == ContestedTokens(rows)
    requires key in entries && entries[key] == existing
    ensures fate == Trip <==> TripsOn(rows, pruneOrphans, entries, key)
    ensures fate != Trip ==> (fate == Drop <==> key in Removable(rows, entries, pruneOrphans))
  {
    hide DidIndexKey, Desired, Contested, ContestedTokens;
    ContestedKey(rows, key);
    if key in desired {
      return Keep;
    }
    if existing.Unreadable? {
      return Drop;
    }
    if key in contested {
      return Keep;
    }
    if !pruneOrphans {
      // The search for an owner reads the field once per row.
      if existing.NullJson? && rows != [] {
        return Trip;
      }
      if existing.NullJson? || !OwnsRows(rows, existing.entry.organizationId) {
        // The line that reports an orphan reads it again, so an empty table does not help.
        return if existing.NullJson? then Trip else Keep;
      }
    }
    return Drop;
  }

  method RemoveStale(
    bucket: Bucket<Slot>, rows: seq<Row>, desired: map<string, Stored>, contested: set<string>,
    pruneOrphans: bool, dryRun: bool)
    returns (removed: nat, crashed: bool, ghost visited: seq<string>)
    requires bucket.Valid()
    requires desired == Desired(rows) && contested == ContestedTokens(rows)
    modifies bucket
    ensures bucket.Valid()
    ensures crashed <==> exists key <- old(bucket.entries) :: TripsOn(rows, pruneOrphans, old(bucket.entries), key)
    ensures !crashed ==> removed == |Removable(rows, old(bucket.entries), pruneOrphans)|
    ensures dryRun ==> bucket.entries == old(bucket.entries)
    ensures !crashed ==> forall key <- old(bucket.entries) :: key in visited
    ensures !dryRun ==>
              bucket.entries
              == Removed(old(bucket.entries), Removable(rows, old(bucket.entries), pruneOrphans), visited)
  {
    hide DidIndexKey, Desired, Contested, ContestedTokens, TripsOn, Removable, Removed;
    hide CountIn, Matches, Select, Without;
    removed := 0;
    ghost var before := bucket.entries;
    ghost var removable := Removable(rows, before, pruneOrphans);
    var keys := bucket.Keys(">");
    forall key ensures key in keys <==> key in before {
      FullRange(key);
    }
    RemovalStart(before, removable);
    assert keys[..0] == [];
    for i := 0 to |keys|
      invariant bucket.Valid()
      invariant removed == CountIn(keys[..i], removable)
      invariant forall key <- keys[..i] :: !TripsOn(rows, pruneOrphans, before, key)
      invariant bucket.entries == if dryRun then before else Removed(before, removable, keys[..i])
    {
      var key := keys[i];
      RemovalStep(before, removable, keys, i);
      var fate := Examine(rows, desired, contested, pruneOrphans, key, bucket.entries[key], before);
      if fate == Trip {
        return removed, true, keys[..i];
      }
      if fate == Drop {
        if !dryRun {
          bucket.Delete(key);
        }
        removed := removed + 1;
      }
    }
    RemovableAmongKeys(rows, before, pruneOrphans);
    CountAll(keys, before.Keys, removable);
    assert keys[..|keys|] == keys;
    crashed, visited := false, keys;
  }

  lemma RemovableAmongKeys(rows: seq<Row>, entries: map<string, Slot>, pruneOrphans: bool)
    ensures Removable(rows, entries, pruneOrphans) <= entries.Keys
  {
    hide Desired, Kept;
  }

  lemma ContestedKey(rows: seq<Row>, key: string)
    ensures key in ContestedTokens(rows) <==> Contested(rows, key)
  {
    hide DidIndexKey;
    if Contested(rows, key) {
      var r :| r in rows && ClaimedAs(r, key);
    }
  }

  /** The script. It reports the plan and leaves the planned bucket, or, on a dry run, the bucket it found.
      The exception is a JSON null where it reads a field: it then stops part of the way, exactly when
      `Crashes` says so, with every key at its old or at its final value. */
  method Rebuild(bucket: Bucket<Slot>, rows: seq<Row>, dryRun: bool, pruneOrphans: bool)
    returns (report: Option<Report>)
    requires bucket.Valid()
    modifies bucket
    ensures bucket.Valid()
    ensures report.None? <==> Crashes(rows, old(bucket.entries), pruneOrphans)
    ensures report.Some? ==> report.value == Plan(rows, old(bucket.entries), pruneOrphans)
    ensures dryRun ==> bucket.entries == old(bucket.entries)
    ensures !dryRun && report.Some? ==> bucket.entries == Final(rows, old(bucket.entries), pruneOrphans)
    ensures Between(old(bucket.entries), bucket.entries, Final(rows, old(bucket.entries), pruneOrphans))
  {
    hide DidIndexKey, Desired, Contested, Kept, ContestedTokens, Final, Removable, Written, Removed, Crashes;
    ghost var before := bucket.entries;
    var byToken, tokens, failures := GroupByToken(rows);
    var contested := FindContested(rows, byToken, tokens);
    failures := failures + |contested|;
    var desired, order := ChooseDesired(rows, byToken, tokens, contested);
    CrashesInOneLoop(rows, before, pruneOrphans);
    var written, untouched, crashed, n := WriteDesired(bucket, desired, order, dryRun);
    if dryRun {
      BetweenUntouched(rows, before, pruneOrphans);
    } else {
      WritesAreBetween(rows, before, pruneOrphans, order[..n]);
    }
    if crashed {
      return None;
    }
    ghost var midway := bucket.entries;
    if !dryRun {
      assert order[..|order|] == order;
      WrittenIsOverlay(before, desired, order);
      OverlayKeepsTheRest(rows, before, pruneOrphans);
    }
    assert Removable(rows, midway, pruneOrphans) == Removable(rows, before, pruneOrphans);
    var removed, tripped, visited := RemoveStale(bucket, rows, desired, contested, pruneOrphans, dryRun);
    if !dryRun {
      RemovalsAreBetween(rows, before, pruneOrphans, visited);
    }
    if tripped {
      return None;
    }
    return Some(Report(written, untouched, removed, |contested|, failures));
  }

  // ---- lemmas about the two loops ------------------------------------------------------------

  lemma CrashesInOneLoop(rows: seq<Row>, entries: map<string, Slot>, pruneOrphans: bool)
    ensures Crashes(rows, entries, pruneOrphans) <==>
            || (exists key <- Desired(rows) :: HoldsNull(entries, key))
            || (exists key <- entries :: TripsOn(rows, pruneOrphans, entries, key))
  {
    hide Desired, Contested;
    if Crashes(rows, entries, pruneOrphans) {
      var key :| key in entries && entries[key].NullJson?
                 && (key in Desired(rows) || (!Contested(rows, key) && !pruneOrphans));
      assert HoldsNull(entries, key);
      assert key in Desired(rows) || TripsOn(rows, pruneOrphans, entries, key);
    }
    if key :| key in Desired(rows) && HoldsNull(entries, key) {
      assert key in entries && entries[key].NullJson?;
    }
    if key :| key in entries && TripsOn(rows, pruneOrphans, entries, key) {
      assert key in entries && entries[key].NullJson?;
    }
  }

  /** With no rows at all the search for an owner reads nothing, but the report of the orphan it then makes
      does: the run stops at every stored null, unless orphans are pruned, and then it never stops. */
  lemma EmptyTableStopsAtNull(entries: map<string, Slot>, pruneOrphans: bool)
    ensures Crashes([], entries, pruneOrphans) <==> !pruneOrphans && exists key <- entries :: entries[key].NullJson?
  {
    hide DidIndexKey;
    assert Desired([]) == map[];
    assert forall key :: !Contested([], key);
  }

  /** What a completed rebuild leaves, key by key. */
  lemma FinalAt(rows: seq<Row>, entries: map<string, Slot>, pruneOrphans: bool, key: string)
    ensures At(Final(rows, entries, pruneOrphans), key)
         == if key in Desired(rows) then Some(Readable(Desired(rows)[key]))
            else if key in entries && Kept(rows, pruneOrphans, key, entries[key]) then Some(entries[key])
            else None
  {
    hide Desired, Kept;
  }

  lemma BetweenUntouched(rows: seq<Row>, entries: map<string, Slot>, pruneOrphans: bool)
    ensures Between(entries, entries, Final(rows, entries, pruneOrphans))
  {
  }

  lemma WritesAreBetween(rows: seq<Row>, entries: map<string, Slot>, pruneOrphans: bool, keys: seq<string>)
    requires forall key <- keys :: key in Desired(rows)
    ensures Between(entries, Written(entries, Desired(rows), keys), Final(rows, entries, pruneOrphans))
  {
    hide Desired, Kept, Final, At, Written;
    var now, after := Written(entries, Desired(rows), keys), Final(rows, entries, pruneOrphans);
    forall key ensures At(now, key) == At(entries, key) || At(now, key) == At(after, key) {
      WrittenAt(entries, Desired(rows), keys, key);
      FinalAt(rows, entries, pruneOrphans, key);
    }
  }

  lemma WrittenIsOverlay(entries: map<string, Slot>, desired: map<string, Stored>, order: seq<string>)
    requires Lists(order, desired.Keys)
    ensures Written(entries, desired, order) == Overlay(entries, desired)
  {
    hide Written;
    var now := Written(entries, desired, order);
    forall key ensures At(now, key) == At(Overlay(entries, desired), key) {
      WrittenAt(entries, desired, order, key);
    }
    SameBucket(now, Overlay(entries, desired));
  }

  lemma OverlayKeepsTheRest(rows: seq<Row>, entries: map<string, Slot>, pruneOrphans: bool)
    ensures var midway := Overlay(entries, Desired(rows));
            && Removable(rows, midway, pruneOrphans) == Removable(rows, entries, pruneOrphans)
            && forall key :: TripsOn(rows, pruneOrphans, midway, key) <==> TripsOn(rows, pruneOrphans, entries, key)
  {
    hide Desired, Kept, Contested;
  }

  lemma RemovalsAreBetween(rows: seq<Row>, entries: map<string, Slot>, pruneOrphans: bool, keys: seq<string>)
    ensures var midway := Overlay(entries, Desired(rows));
            var now := Removed(midway, Removable(rows, entries, pruneOrphans), keys);
            && Between(entries, now, Final(rows, entries, pruneOrphans))
            && ((forall key <- midway :: key in keys) ==> now == Final(rows, entries, pruneOrphans))
  {
    hide Desired, Kept, Final, Removed;
    var midway, removable := Overlay(entries, Desired(rows)), Removable(rows, entries, pruneOrphans);
    var now, after := Removed(midway, removable, keys), Final(rows, entries, pruneOrphans);
    forall key
      ensures At(now, key) == At(entries, key) || At(now, key) == At(after, key)
      ensures (forall k <- midway :: k in keys) ==> At(now, key) == At(after, key)
    {
      RemovedAt(midway, removable, keys, key);
      FinalAt(rows, entries, pruneOrphans, key);
    }
    if forall key <- midway :: key in keys {
      SameBucket(now, after);
    }
  }
}
