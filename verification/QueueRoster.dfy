/** The rebuild of the `queue-membership` bucket: one roster per queue, reconciled tenant by tenant over
    the tenant's own key range. */
module QueueRoster {
  import opened Wrappers
  import opened Text
  import opened Tokens
  import opened Matching
  import opened Streams
  import opened Kv
  import opened Uuids

  /** What a key holds: nothing the script can read, or a roster. Everything in a roster but the queue it
      names and its revision is in `body`. */
  datatype Value = Unreadable | Roster(queueId: Option<string>, revision: Option<int>, body: string)

  type Entries = map<string, Value>

  /** A queue of the tenant's tables, with the body the projection gives its roster. */
  datatype QueueRow = QueueRow(id: string, body: string)

  datatype Tenant = Tenant(org: string, queues: seq<QueueRow>)

  // ---- one tenant ----------------------------------------------------------------------------

  function Range(org: string): string {
    org + ".*"
  }

  function InRange(entries: Entries, org: string): set<string> {
    set key | key in entries && Matches(Range(org), key)
  }

  /** The last revision each queue is named with, over keys in listing order. */
  function Previous(entries: Entries, keys: seq<string>): map<string, int>
    requires forall key <- keys :: key in entries
  {
    if keys == [] then map[]
    else
      var rest, value := Previous(entries, keys[..|keys| - 1]), entries[keys[|keys| - 1]];
      if value.Roster? && value.queueId.Some?
      then rest[value.queueId.value := if value.revision.Some? then value.revision.value else 0]
      else rest
  }

  /** The projection's roster: the counter advances from the revision found, or from zero. */
  function RosterOf(row: QueueRow, previous: map<string, int>): Value {
    Roster(Some(row.id), Some((if row.id in previous then previous[row.id] else 0) + 1), row.body)
  }

  function KeyOf(org: string, row: QueueRow): Result<string> {
    OrgKey(org, "queueId", row.id)
  }

  predicate Keyable(org: string, queues: seq<QueueRow>) {
    forall row <- queues :: KeyOf(org, row).Ok?
  }

  /** The rosters of `queues` under their keys. */
  function Wanted(org: string, queues: seq<QueueRow>, previous: map<string, int>): Entries
    requires Keyable(org, queues)
  {
    if queues == [] then map[]
    else
      var last := queues[|queues| - 1];
      Wanted(org, queues[..|queues| - 1], previous)[KeyOf(org, last).value := RosterOf(last, previous)]
  }

  function TenantWanted(entries: Entries, order: seq<string>, tenant: Tenant): Entries
    requires forall key <- order :: key in entries
    requires Keyable(tenant.org, tenant.queues)
  {
    Wanted(tenant.org, tenant.queues, Previous(entries, Select(order, Range(tenant.org))))
  }

  /** Puts and deletes of keys outside a filter leave the listing of that filter as it was. */
  ghost predicate Undisturbed(before: seq<string>, after: seq<string>, touched: set<string>) {
    forall filter | (forall key <- touched :: !Matches(filter, key)) :: Select(after, filter) == Select(before, filter)
  }

  lemma {:induction false} SelectWithout(keys: seq<string>, key: string, filter: string)
    requires !Matches(filter, key)
    ensures Select(Without(keys, key), filter) == Select(keys, filter)
  {
    hide Matches;
    if keys == [] {
    } else {
      SelectWithout(keys[1..], key, filter);
      if keys[0] != key {
        assert Without(keys, key)[0] == keys[0] && Without(keys, key)[1..] == Without(keys[1..], key);
      }
    }
  }

  lemma {:induction false} SelectAppend(keys: seq<string>, key: string, filter: string)
    ensures Select(keys + [key], filter) == Select(keys, filter) + (if Matches(filter, key) then [key] else [])
  {
    hide Matches;
    if keys == [] {
      assert keys + [key] == [key];
      assert [key][1..] == [];
    } else {
      SelectAppend(keys[1..], key, filter);
      assert (keys + [key])[0] == keys[0] && (keys + [key])[1..] == keys[1..] + [key];
    }
  }

  lemma PutUndisturbed(before: seq<string>, now: seq<string>, touched: set<string>, key: string)
    requires Undisturbed(before, now, touched) && key in touched
    ensures Undisturbed(before, Without(now, key) + [key], touched)
    ensures Undisturbed(before, Without(now, key), touched)
  {
    hide Matches, Select, Without;
    forall filter | forall k <- touched :: !Matches(filter, k)
      ensures Select(Without(now, key) + [key], filter) == Select(before, filter)
      ensures Select(Without(now, key), filter) == Select(before, filter)
    {
      SelectWithout(now, key, filter);
      SelectAppend(Without(now, key), key, filter);
    }
  }

  method ReadPrevious(entries: Entries, keys: seq<string>) returns (previous: map<string, int>)
    requires forall key <- keys :: key in entries
    ensures previous == Previous(entries, keys)
  {
    previous := map[];
    for i := 0 to |keys|
      invariant previous == Previous(entries, keys[..i])
    {
      assert keys[..i + 1][..i] == keys[..i] && keys[..i + 1][i] == keys[i];
      var value := entries[keys[i]];
      if value.Roster? && value.queueId.Some? {
        previous := previous[value.queueId.value := if value.revision.Some? then value.revision.value else 0];
      }
    }
    assert keys[..|keys|] == keys;
  }

  lemma PutStep(org: string, queues: seq<QueueRow>, previous: map<string, int>, i: nat)
    requires i < |queues| && Keyable(org, queues[..i])
    ensures Keyable(org, queues[..i + 1]) <==> KeyOf(org, queues[i]).Ok?
    ensures KeyOf(org, queues[i]).Err? ==> !Keyable(org, queues)
    ensures KeyOf(org, queues[i]).Ok? ==>
              Wanted(org, queues[..i + 1], previous)
              == Wanted(org, queues[..i], previous)[KeyOf(org, queues[i]).value := RosterOf(queues[i], previous)]
  {
    hide KeyOf, RosterOf;
    var next := queues[..i + 1];
    assert next[..i] == queues[..i] && next == queues[..i] + [queues[i]];
    assert queues[i] in queues;
  }

  lemma PutStart(org: string, previous: map<string, int>)
    ensures Keyable(org, []) && Wanted(org, [], previous) == map[]
  {
  }

  /** Every roster is put, unconditionally; a queue whose key cannot be built stops the run. `range` is any
      set the keys stay in. */
  method PutRosters(bucket: Bucket<Value>, org: string, queues: seq<QueueRow>, previous: map<string, int>,
                    dryRun: bool, ghost range: set<string>)
    returns (wanted: set<string>, written: nat, ok: bool)
    requires bucket.Valid()
    requires forall row <- queues :: KeyOf(org, row).Ok? ==> KeyOf(org, row).value in range
    modifies bucket
    ensures bucket.Valid()
    ensures ok <==> Keyable(org, queues)
    ensures ok ==> wanted == Wanted(org, queues, previous).Keys && written == |queues|
    ensures dryRun ==> bucket.entries == old(bucket.entries) && bucket.order == old(bucket.order)
    ensures !dryRun && ok ==> bucket.entries == old(bucket.entries) + Wanted(org, queues, previous)
    ensures Undisturbed(old(bucket.order), bucket.order, range)
    ensures forall key | key !in range :: At(bucket.entries, key) == At(old(bucket.entries), key)
  {
    hide KeyOf, RosterOf, Undisturbed, Without, Wanted, Keyable;
    wanted, written := {}, 0;
    ghost var before := bucket.entries;
    UndisturbedSelf(bucket.order, range);
    PutStart(org, previous);
    assert queues[..0] == [] && before + map[] == before;
    for i := 0 to |queues|
      invariant bucket.Valid()
      invariant Keyable(org, queues[..i])
      invariant wanted == Wanted(org, queues[..i], previous).Keys && written == i
      invariant dryRun ==> bucket.entries == before && bucket.order == old(bucket.order)
      invariant !dryRun ==> bucket.entries == before + Wanted(org, queues[..i], previous)
      invariant Undisturbed(old(bucket.order), bucket.order, range)
      invariant forall key | key !in range :: At(bucket.entries, key) == At(before, key)
    {
      PutStep(org, queues, previous, i);
      var key := KeyOf(org, queues[i]);
      if key.Err? {
        return wanted, written, false;
      }
      wanted := wanted + {key.value};
      if !dryRun {
        PutUndisturbed(old(bucket.order), bucket.order, range, key.value);
        bucket.Put(key.value, RosterOf(queues[i], previous));
      }
      written := written + 1;
    }
    assert queues[..|queues|] == queues;
    ok := true;
  }

  lemma UndisturbedSelf(order: seq<string>, touched: set<string>)
    ensures Undisturbed(order, order, touched)
  {
  }

  method DropUnwanted(bucket: Bucket<Value>, existing: seq<string>, wanted: set<string>, dryRun: bool,
                      ghost range: set<string>)
    returns (removed: nat)
    requires bucket.Valid() && NoDuplicates(existing)
    requires forall key <- existing :: key in range
    modifies bucket
    ensures bucket.Valid()
    ensures removed == |(set key | key in existing) - wanted|
    ensures dryRun ==> bucket.entries == old(bucket.entries) && bucket.order == old(bucket.order)
    ensures !dryRun ==> bucket.entries == old(bucket.entries) - ((set key | key in existing) - wanted)
    ensures Undisturbed(old(bucket.order), bucket.order, range)
  {
    hide Undisturbed, Without, Removed, CountIn;
    removed := 0;
    UndisturbedSelf(bucket.order, range);
    ghost var before, unwanted := bucket.entries, (set key | key in existing) - wanted;
    RemovalStart(before, unwanted);
    assert existing[..0] == [];
    for i := 0 to |existing|
      invariant bucket.Valid()
      invariant removed == CountIn(existing[..i], unwanted)
      invariant dryRun ==> bucket.entries == before && bucket.order == old(bucket.order)
      invariant !dryRun ==> bucket.entries == Removed(before, unwanted, existing[..i])
      invariant Undisturbed(old(bucket.order), bucket.order, range)
    {
      var key := existing[i];
      RemovalStep(before, unwanted, existing, i);
      if key in wanted {
        continue;
      }
      if !dryRun {
        PutUndisturbed(old(bucket.order), bucket.order, range, key);
        bucket.Delete(key);
      }
      removed := removed + 1;
    }
    assert existing[..|existing|] == existing;
    CountAll(existing, (set key | key in existing), unwanted);
    RemovedAll(before, unwanted, existing);
  }

  lemma RemovedAll(entries: Entries, removable: set<string>, keys: seq<string>)
    requires forall key <- removable :: key in keys
    ensures Removed(entries, removable, keys) == entries - removable
  {
    hide Removed;
    forall key ensures At(Removed(entries, removable, keys), key) == At(entries - removable, key) {
      RemovedAt(entries, removable, keys, key);
    }
    SameBucket(Removed(entries, removable, keys), entries - removable);
  }

  /** The keys a tenant's turn may write or delete. */
  function Touched(entries: Entries, tenant: Tenant): set<string> {
    InRange(entries, tenant.org)
    + set row | row in tenant.queues && KeyOf(tenant.org, row).Ok? :: KeyOf(tenant.org, row).value
  }

  /** The bucket after one tenant's turn. */
  function TenantFinal(entries: Entries, order: seq<string>, tenant: Tenant): Entries
    requires forall key <- order :: key in entries
    requires Keyable(tenant.org, tenant.queues)
  {
    var wanted := TenantWanted(entries, order, tenant);
    (entries + wanted) - (InRange(entries, tenant.org) - wanted.Keys)
  }

  function TenantRemoved(entries: Entries, order: seq<string>, tenant: Tenant): nat
    requires forall key <- order :: key in entries
    requires Keyable(tenant.org, tenant.queues)
  {
    |InRange(entries, tenant.org) - TenantWanted(entries, order, tenant).Keys|
  }

  /** One organization's turn once its rows are read, whatever string names it. */
  method RebuildTenant(bucket: Bucket<Value>, tenant: Tenant, dryRun: bool)
    returns (written: nat, removed: nat, ok: bool)
    requires bucket.Valid()
    modifies bucket
    ensures bucket.Valid()
    ensures ok <==> Keyable(tenant.org, tenant.queues)
    ensures ok ==> written == |tenant.queues|
    ensures ok ==> removed == TenantRemoved(old(bucket.entries), old(bucket.order), tenant)
    ensures dryRun ==> bucket.entries == old(bucket.entries) && bucket.order == old(bucket.order)
    ensures !dryRun && ok ==> bucket.entries == TenantFinal(old(bucket.entries), old(bucket.order), tenant)
    ensures Undisturbed(old(bucket.order), bucket.order, Touched(old(bucket.entries), tenant))
    ensures forall key | key !in Touched(old(bucket.entries), tenant) ::
              At(bucket.entries, key) == At(old(bucket.entries), key)
  {
    hide KeyOf, Undisturbed, Without, Wanted, Keyable, Previous, Matches, Select, RosterOf;
    ghost var before, order := bucket.entries, bucket.order;
    ghost var range := Touched(before, tenant);
    var existing := bucket.Keys(Range(tenant.org));
    assert (set key | key in existing) == InRange(before, tenant.org);
    var previous := ReadPrevious(bucket.entries, existing);
    var wanted;
    wanted, written, ok := PutRosters(bucket, tenant.org, tenant.queues, previous, dryRun, range);
    if !ok {
      return written, 0, false;
    }
    ghost var midway := bucket.order;
    removed := DropUnwanted(bucket, existing, wanted, dryRun, range);
    UndisturbedChain(order, midway, bucket.order, range);
  }

  // ---- reading a tenant's rows ----------------------------------------------------------------

  /** The queues of each organization, by its id as the database prints it. */
  type Tables = map<string, seq<QueueRow>>

  /** The read inside a tenant scope. A blank string is refused; otherwise row-level security compares ids
      with the trimmed string cast to a uuid, which fails on anything that is not one. */
  function ScopedRead(tables: Tables, organization: string): Option<seq<QueueRow>> {
    match Cast(Trim(organization))
    case None => None
    case Some(id) => Some(if id in tables then tables[id] else [])
  }

  /** A turn of the loop, for any string: a string that names no uuid stops the run before the bucket is read,
      and any other gets a turn on the rows of the id it names, under the keys of its own spelling. */
  method RebuildOrganization(bucket: Bucket<Value>, tables: Tables, organization: string, dryRun: bool)
    returns (written: nat, removed: nat, ok: bool)
    requires bucket.Valid()
    modifies bucket
    ensures bucket.Valid()
    ensures var read := ScopedRead(tables, organization);
            ok <==> read.Some? && Keyable(organization, read.value)
    ensures ScopedRead(tables, organization).None? ==>
              bucket.entries == old(bucket.entries) && bucket.order == old(bucket.order)
    ensures ok ==>
              var tenant := Tenant(organization, ScopedRead(tables, organization).value);
              && written == |tenant.queues|
              && removed == TenantRemoved(old(bucket.entries), old(bucket.order), tenant)
              && bucket.entries
                 == if dryRun then old(bucket.entries) else TenantFinal(old(bucket.entries), old(bucket.order), tenant)
    ensures ScopedRead(tables, organization).Some? ==>
              var tenant := Tenant(organization, ScopedRead(tables, organization).value);
              forall key | key !in Touched(old(bucket.entries), tenant) ::
                At(bucket.entries, key) == At(old(bucket.entries), key)
  {
    hide Keyable, TenantFinal, TenantRemoved, Touched, Undisturbed, ScopedRead;
    var read := ScopedRead(tables, organization);
    if read.None? {
      return 0, 0, false;
    }
    written, removed, ok := RebuildTenant(bucket, Tenant(organization, read.value), dryRun);
  }

  lemma UndisturbedChain(a: seq<string>, b: seq<string>, c: seq<string>, touched: set<string>)
    requires Undisturbed(a, b, touched) && Undisturbed(b, c, touched)
    ensures Undisturbed(a, c, touched)
  {
    hide Matches, Select;
  }

  // ---- the whole run -------------------------------------------------------------------------

  /** What `select distinct organization_id` delivers: tokens, each once. */
  predicate WellFormed(tenants: seq<Tenant>) {
    && (forall tenant <- tenants :: SubjectToken(tenant.org))
    && (forall i, j | 0 <= i < j < |tenants| :: tenants[i].org != tenants[j].org)
  }

  predicate AllKeyable(tenants: seq<Tenant>) {
    forall tenant <- tenants :: Keyable(tenant.org, tenant.queues)
  }

  /** The bucket after every tenant's turn, each computed from the bucket as it was at the start. */
  function RunFinal(entries: Entries, order: seq<string>, tenants: seq<Tenant>): Entries
    requires forall key <- order :: key in entries
    requires AllKeyable(tenants)
  {
    if tenants == [] then entries
    else
      var last := tenants[|tenants| - 1];
      var wanted := TenantWanted(entries, order, last);
      (RunFinal(entries, order, tenants[..|tenants| - 1]) + wanted) - (InRange(entries, last.org) - wanted.Keys)
  }

  function RunRemoved(entries: Entries, order: seq<string>, tenants: seq<Tenant>): nat
    requires forall key <- order :: key in entries
    requires AllKeyable(tenants)
  {
    if tenants == [] then 0
    else
      RunRemoved(entries, order, tenants[..|tenants| - 1]) + TenantRemoved(entries, order, tenants[|tenants| - 1])
  }

  function RunWritten(tenants: seq<Tenant>): nat {
    if tenants == [] then 0 else RunWritten(tenants[..|tenants| - 1]) + |tenants[|tenants| - 1].queues|
  }

  predicate Visited(tenants: seq<Tenant>, key: string) {
    exists tenant <- tenants :: Matches(Range(tenant.org), key)
  }

  /** Everything a tenant's turn touches is in its own range. */
  lemma TouchedInRange(entries: Entries, tenant: Tenant, key: string)
    requires SubjectToken(tenant.org) && key in Touched(entries, tenant)
    ensures Matches(Range(tenant.org), key)
  {
    if key !in InRange(entries, tenant.org) {
      var row :| row in tenant.queues && KeyOf(tenant.org, row).Ok? && KeyOf(tenant.org, row).value == key;
      AnyRangeOnOrgKey(tenant.org, tenant.org, "queueId", row.id);
    }
  }

  /** No key is in the ranges of two organizations. */
  lemma RangesDisjoint(a: string, b: string, key: string)
    requires SubjectToken(a) && SubjectToken(b)
    requires Matches(Range(a), key) && Matches(Range(b), key)
    ensures a == b
  {
    OrgRangeSelects(a, key);
    OrgRangeSelects(b, key);
  }

  lemma {:induction false} PreviousIsLocal(before: Entries, now: Entries, keys: seq<string>)
    requires forall key <- keys :: key in before && At(now, key) == At(before, key)
    ensures forall key <- keys :: key in now
    ensures Previous(now, keys) == Previous(before, keys)
  {
    if keys == [] {
    } else {
      var front, last := keys[..|keys| - 1], keys[|keys| - 1];
      assert last in keys && forall key <- front :: key in keys;
      PreviousIsLocal(before, now, front);
      assert At(now, last) == At(before, last);
    }
  }

  /** A turn depends on nothing but the tenant's own range. */
  lemma TurnIsLocal(before: Entries, order: seq<string>, now: Entries, order': seq<string>, tenant: Tenant)
    requires forall key <- order :: key in before
    requires forall key <- order' :: key in now
    requires Keyable(tenant.org, tenant.queues)
    requires Select(order', Range(tenant.org)) == Select(order, Range(tenant.org))
    requires forall key | Matches(Range(tenant.org), key) :: At(now, key) == At(before, key)
    ensures InRange(now, tenant.org) == InRange(before, tenant.org)
    ensures TenantWanted(now, order', tenant) == TenantWanted(before, order, tenant)
  {
    hide Matches, Previous, Wanted, Keyable;
    forall key ensures key in InRange(now, tenant.org) <==> key in InRange(before, tenant.org) {
      assert Matches(Range(tenant.org), key) ==> At(now, key) == At(before, key);
    }
    PreviousIsLocal(before, now, Select(order, Range(tenant.org)));
  }

  /** The other tenants' ranges are as they were, contents and listing. */
  ghost predicate Pristine(
    before: Entries, order: seq<string>, now: Entries, order': seq<string>, tenants: seq<Tenant>)
  {
    forall tenant <- tenants ::
      && Select(order', Range(tenant.org)) == Select(order, Range(tenant.org))
      && forall key | Matches(Range(tenant.org), key) :: At(now, key) == At(before, key)
  }

  lemma TurnKeepsOthers(
    before: Entries, order: seq<string>, now: Entries, order': seq<string>, next: Entries, order'': seq<string>,
    tenant: Tenant, others: seq<Tenant>)
    requires Pristine(before, order, now, order', others)
    requires SubjectToken(tenant.org) && forall other <- others :: SubjectToken(other.org) && other.org != tenant.org
    requires Undisturbed(order', order'', Touched(now, tenant))
    requires forall key | key !in Touched(now, tenant) :: At(next, key) == At(now, key)
    ensures Pristine(before, order, next, order'', others)
  {
    hide Matches, Select, Touched, SubjectToken;
    forall other <- others
      ensures Select(order'', Range(other.org)) == Select(order, Range(other.org))
      ensures forall key | Matches(Range(other.org), key) :: At(next, key) == At(before, key)
    {
      forall key | Matches(Range(other.org), key) ensures key !in Touched(now, tenant) {
        if key in Touched(now, tenant) {
          TouchedInRange(now, tenant, key);
          RangesDisjoint(tenant.org, other.org, key);
        }
      }
    }
  }

  /** The run over every organization. A dry run counts what a real one would; a real one that completes
      leaves the planned bucket; and complete or not, keys outside the visited ranges are untouched. */
  method Rebuild(bucket: Bucket<Value>, tenants: seq<Tenant>, dryRun: bool)
    returns (written: nat, removed: nat, ok: bool)
    requires bucket.Valid() && WellFormed(tenants)
    modifies bucket
    ensures bucket.Valid()
    ensures ok <==> AllKeyable(tenants)
    ensures ok ==> written == RunWritten(tenants)
    ensures ok ==> removed == RunRemoved(old(bucket.entries), old(bucket.order), tenants)
    ensures dryRun ==> bucket.entries == old(bucket.entries)
    ensures !dryRun && ok ==> bucket.entries == RunFinal(old(bucket.entries), old(bucket.order), tenants)
    ensures forall key | !Visited(tenants, key) :: At(bucket.entries, key) == At(old(bucket.entries), key)
  {
    hide KeyOf, Undisturbed, TenantWanted, Keyable, AllKeyable, Matches, Select, Pristine, Touched, Visited, At;
    hide TenantFinal, TenantRemoved, RunFinal, RunRemoved, RunWritten;
    written, removed, ok := 0, 0, true;
    ghost var before, order := bucket.entries, bucket.order;
    PristineAtStart(before, order, tenants);
    RunStart(before, order);
    assert tenants[..0] == [];
    for i := 0 to |tenants|
      invariant bucket.Valid() && ok
      invariant AllKeyable(tenants[..i])
      invariant written == RunWritten(tenants[..i])
      invariant removed == RunRemoved(before, order, tenants[..i])
      invariant dryRun ==> bucket.entries == before && bucket.order == order
      invariant !dryRun ==> bucket.entries == RunFinal(before, order, tenants[..i])
      invariant Pristine(before, order, bucket.entries, bucket.order, tenants[i..])
      invariant forall key | !Visited(tenants, key) :: At(bucket.entries, key) == At(before, key)
    {
      ghost var now, listing := bucket.entries, bucket.order;
      RunStep(before, order, now, listing, tenants, i);
      UnvisitedUntouched(tenants, i, now);
      var put, dropped, fine := RebuildTenant(bucket, tenants[i], dryRun);
      if !fine {
        ok := false;
        return;
      }
      TurnKeepsOthers(before, order, now, listing, bucket.entries, bucket.order, tenants[i], tenants[i + 1..]);
      written := written + put;
      removed := removed + dropped;
    }
    assert tenants[..|tenants|] == tenants;
  }

  lemma RunStart(entries: Entries, order: seq<string>)
    requires forall key <- order :: key in entries
    ensures AllKeyable([]) && RunWritten([]) == 0
    ensures RunRemoved(entries, order, []) == 0 && RunFinal(entries, order, []) == entries
  {
  }

  lemma LaterTenantsDiffer(tenants: seq<Tenant>, i: nat)
    requires i < |tenants| && WellFormed(tenants)
    ensures tenants[i] in tenants && SubjectToken(tenants[i].org)
    ensures forall other <- tenants[i + 1..] :: other.org != tenants[i].org && SubjectToken(other.org)
  {
    hide SubjectToken;
    forall other <- tenants[i + 1..] ensures other.org != tenants[i].org && SubjectToken(other.org) {
      var j :| i + 1 <= j < |tenants| && tenants[j] == other;
      assert tenants[j] in tenants;
    }
  }

  /** Appending a tenant to the run: its turn, computed from the bucket at the start, comes last. */
  lemma RunUnfolds(entries: Entries, order: seq<string>, front: seq<Tenant>, tenant: Tenant)
    requires forall key <- order :: key in entries
    requires AllKeyable(front) && Keyable(tenant.org, tenant.queues)
    ensures AllKeyable(front + [tenant])
    ensures RunWritten(front + [tenant]) == RunWritten(front) + |tenant.queues|
    ensures RunRemoved(entries, order, front + [tenant])
            == RunRemoved(entries, order, front) + TenantRemoved(entries, order, tenant)
    ensures var wanted := TenantWanted(entries, order, tenant);
            RunFinal(entries, order, front + [tenant])
            == (RunFinal(entries, order, front) + wanted) - (InRange(entries, tenant.org) - wanted.Keys)
  {
    hide Matches, Select, Keyable, TenantWanted, TenantRemoved, InRange;
    var whole := front + [tenant];
    assert whole[..|whole| - 1] == front && whole[|whole| - 1] == tenant;
  }

  lemma RunStep(before: Entries, order: seq<string>, now: Entries, order': seq<string>, tenants: seq<Tenant>, i: nat)
    requires forall key <- order :: key in before
    requires forall key <- order' :: key in now
    requires i < |tenants| && AllKeyable(tenants[..i]) && WellFormed(tenants)
    requires Pristine(before, order, now, order', tenants[i..])
    ensures Pristine(before, order, now, order', tenants[i + 1..])
    ensures forall other <- tenants[i + 1..] :: other.org != tenants[i].org && SubjectToken(other.org)
    ensures SubjectToken(tenants[i].org)
    ensures !Keyable(tenants[i].org, tenants[i].queues) ==> !AllKeyable(tenants)
    ensures Keyable(tenants[i].org, tenants[i].queues) ==>
              && AllKeyable(tenants[..i + 1])
              && RunWritten(tenants[..i + 1]) == RunWritten(tenants[..i]) + |tenants[i].queues|
              && RunRemoved(before, order, tenants[..i + 1])
                 == RunRemoved(before, order, tenants[..i]) + TenantRemoved(now, order', tenants[i])
              && (now == RunFinal(before, order, tenants[..i]) ==>
                    TenantFinal(now, order', tenants[i]) == RunFinal(before, order, tenants[..i + 1]))
  {
    hide Matches, Select, Keyable, TenantWanted, SubjectToken, Pristine, InRange, At;
    hide RunWritten, RunRemoved, RunFinal;
    var tenant := tenants[i];
    assert tenants[..i + 1] == tenants[..i] + [tenant];
    assert tenants[i..][0] == tenant && tenants[i..][1..] == tenants[i + 1..];
    LaterTenantsDiffer(tenants, i);
    PristineTail(before, order, now, order', tenants[i..]);
    hide WellFormed;
    if Keyable(tenant.org, tenant.queues) {
      RunUnfolds(before, order, tenants[..i], tenant);
      TurnIsLocal(before, order, now, order', tenant);
    }
  }

  lemma PristineAtStart(entries: Entries, order: seq<string>, tenants: seq<Tenant>)
    ensures Pristine(entries, order, entries, order, tenants)
    ensures tenants[0..] == tenants
  {
    hide Matches, Select;
  }

  lemma PristineTail(before: Entries, order: seq<string>, now: Entries, order': seq<string>, tenants: seq<Tenant>)
    requires Pristine(before, order, now, order', tenants) && tenants != []
    ensures Pristine(before, order, now, order', tenants[1..])
    ensures Select(order', Range(tenants[0].org)) == Select(order, Range(tenants[0].org))
    ensures forall key | Matches(Range(tenants[0].org), key) :: At(now, key) == At(before, key)
  {
    hide Matches, Select;
  }

  lemma UnvisitedUntouched(tenants: seq<Tenant>, i: nat, entries: Entries)
    requires WellFormed(tenants) && i < |tenants|
    ensures forall key | !Visited(tenants, key) :: key !in Touched(entries, tenants[i])
  {
    hide Matches, Touched;
    assert tenants[i] in tenants;
    forall key | !Visited(tenants, key) ensures key !in Touched(entries, tenants[i]) {
      if key in Touched(entries, tenants[i]) {
        TouchedInRange(entries, tenants[i], key);
      }
    }
  }
}
