/** What a rebuild of the `queue-membership` bucket guarantees, for every bucket and set of tenants. */
module QueueRosterLaws {
  import opened Wrappers
  import opened Text
  import opened Tokens
  import opened Matching
  import opened Streams
  import opened Kv
  import opened Uuids
  import opened QueueRoster

  ghost predicate Listed(entries: Entries, order: seq<string>) {
    NoDuplicates(order) && forall key :: key in order <==> key in entries
  }

  predicate UniqueIds(queues: seq<QueueRow>) {
    forall i, j | 0 <= i < j < |queues| :: queues[i].id != queues[j].id
  }

  // ---- a tenant's rosters --------------------------------------------------------------------

  lemma {:induction false} WantedKeys(org: string, queues: seq<QueueRow>, previous: map<string, int>, key: string)
    requires Keyable(org, queues)
    ensures key in Wanted(org, queues, previous) <==> exists row <- queues :: KeyOf(org, row) == Ok(key)
  {
    hide KeyOf, RosterOf;
    if queues == [] {
    } else {
      var front, last := queues[..|queues| - 1], queues[|queues| - 1];
      assert queues == front + [last];
      WantedKeys(org, front, previous, key);
      if row :| row in queues && KeyOf(org, row) == Ok(key) {
        assert row in front || row == last;
      }
    }
  }

  lemma {:induction false} WantedAt(org: string, queues: seq<QueueRow>, previous: map<string, int>, row: QueueRow)
    requires Keyable(org, queues) && UniqueIds(queues) && row in queues
    ensures KeyOf(org, row).Ok?
    ensures At(Wanted(org, queues, previous), KeyOf(org, row).value) == Some(RosterOf(row, previous))
  {
    hide RosterOf, OrgKey;
    var front, last := queues[..|queues| - 1], queues[|queues| - 1];
    assert queues == front + [last];
    if row != last {
      assert row in front;
      WantedAt(org, front, previous, row);
      var i :| 0 <= i < |queues| - 1 && queues[i] == row;
      assert row.id != last.id;
      if KeyOf(org, row) == KeyOf(org, last) {
        OrgKeyInjective(org, "queueId", row.id, org, "queueId", last.id);
      }
    }
  }

  lemma WantedInRange(tenant: Tenant, previous: map<string, int>, key: string)
    requires Keyable(tenant.org, tenant.queues) && key in Wanted(tenant.org, tenant.queues, previous)
    ensures Matches(Range(tenant.org), key)
  {
    hide RosterOf, Matches, Wanted;
    WantedKeys(tenant.org, tenant.queues, previous, key);
    var row :| row in tenant.queues && KeyOf(tenant.org, row) == Ok(key);
    AnyRangeOnOrgKey(tenant.org, tenant.org, "queueId", row.id);
  }

  /** Every visited tenant's range ends as that tenant's rosters and nothing else; every key of no visited
      tenant ends as it was. */
  lemma {:induction false} RunFinalAt(entries: Entries, order: seq<string>, tenants: seq<Tenant>, key: string)
    requires Listed(entries, order) && WellFormed(tenants) && AllKeyable(tenants)
    ensures forall tenant <- tenants | Matches(Range(tenant.org), key) ::
              At(RunFinal(entries, order, tenants), key) == At(TenantWanted(entries, order, tenant), key)
    ensures !Visited(tenants, key) ==> At(RunFinal(entries, order, tenants), key) == At(entries, key)
  {
    if tenants == [] {
    } else {
      var front, last := tenants[..|tenants| - 1], tenants[|tenants| - 1];
      assert tenants == front + [last];
      assert last in tenants && forall tenant <- front :: tenant in tenants;
      RunFinalAt(entries, order, front, key);
      FrontDiffers(tenants);
      LastTurnAt(entries, order, tenants, key);
      hide Matches, TenantWanted, RunFinal, Keyable, SubjectToken;
      forall tenant <- tenants | Matches(Range(tenant.org), key)
        ensures At(RunFinal(entries, order, tenants), key) == At(TenantWanted(entries, order, tenant), key)
      {
        if tenant in front && Matches(Range(last.org), key) {
          RangesDisjoint(tenant.org, last.org, key);
        }
      }
    }
  }

  lemma FrontDiffers(tenants: seq<Tenant>)
    requires tenants != [] && WellFormed(tenants)
    ensures forall tenant <- tenants[..|tenants| - 1] ::
              tenant.org != tenants[|tenants| - 1].org && SubjectToken(tenant.org)
  {
    hide SubjectToken;
    var last := tenants[|tenants| - 1];
    forall tenant <- tenants[..|tenants| - 1] ensures tenant.org != last.org && SubjectToken(tenant.org) {
      assert tenant in tenants;
    }
  }

  lemma LastTurnAt(entries: Entries, order: seq<string>, tenants: seq<Tenant>, key: string)
    requires Listed(entries, order) && tenants != [] && WellFormed(tenants) && AllKeyable(tenants)
    requires var front := tenants[..|tenants| - 1];
             && AllKeyable(front)
             && (!Visited(front, key) ==> At(RunFinal(entries, order, front), key) == At(entries, key))
    ensures var front, last := tenants[..|tenants| - 1], tenants[|tenants| - 1];
            At(RunFinal(entries, order, tenants), key)
            == if Matches(Range(last.org), key) then At(TenantWanted(entries, order, last), key)
               else At(RunFinal(entries, order, front), key)
  {
    hide Matches, Wanted, Previous, Keyable, SubjectToken;
    var front, last := tenants[..|tenants| - 1], tenants[|tenants| - 1];
    var wanted := TenantWanted(entries, order, last);
    assert last in tenants;
    if key in wanted {
      WantedInRange(last, Previous(entries, Select(order, Range(last.org))), key);
    }
    if Matches(Range(last.org), key) && Visited(front, key) {
      var tenant :| tenant in front && Matches(Range(tenant.org), key);
      FrontDiffers(tenants);
      RangesDisjoint(tenant.org, last.org, key);
      assert false;
    }
  }

  /** In particular each queue of a visited tenant ends with its roster, and no other key is left. */
  lemma RangeIsTheProjection(entries: Entries, order: seq<string>, tenants: seq<Tenant>, tenant: Tenant)
    requires Listed(entries, order) && WellFormed(tenants) && AllKeyable(tenants)
    requires tenant in tenants && UniqueIds(tenant.queues)
    ensures var after := RunFinal(entries, order, tenants);
            var previous := Previous(entries, Select(order, Range(tenant.org)));
            && (forall row <- tenant.queues ::
                  KeyOf(tenant.org, row).Ok?
                  && At(after, KeyOf(tenant.org, row).value) == Some(RosterOf(row, previous)))
            && (forall row <- tenant.queues ::
                  IsRosterOf(At(after, KeyOf(tenant.org, row).value), row, entries, Select(order, Range(tenant.org))))
            && InRange(after, tenant.org) == set row | row in tenant.queues :: KeyOf(tenant.org, row).value
  {
    hide Matches, Previous, RosterOf, Wanted, RunFinal, OrgKey, IsRosterOf;
    var after, wanted := RunFinal(entries, order, tenants), TenantWanted(entries, order, tenant);
    var previous := Previous(entries, Select(order, Range(tenant.org)));
    forall row <- tenant.queues
      ensures KeyOf(tenant.org, row).Ok?
      ensures At(after, KeyOf(tenant.org, row).value) == Some(RosterOf(row, previous))
      ensures IsRosterOf(At(after, KeyOf(tenant.org, row).value), row, entries, Select(order, Range(tenant.org)))
    {
      WantedAt(tenant.org, tenant.queues, previous, row);
      var key := KeyOf(tenant.org, row).value;
      WantedInRange(tenant, previous, key);
      RunFinalAt(entries, order, tenants, key);
      RosterIs(entries, order, tenant.org, row);
    }
    forall key
      ensures key in InRange(after, tenant.org) <==> exists row <- tenant.queues :: KeyOf(tenant.org, row).value == key
    {
      WantedKeys(tenant.org, tenant.queues, previous, key);
      RunFinalAt(entries, order, tenants, key);
      if key in wanted {
        WantedInRange(tenant, previous, key);
      }
    }
  }

  /** A roster that names the queue, carries its contents, and follows on from the revisions listed. */
  ghost predicate IsRosterOf(value: Option<Value>, row: QueueRow, entries: Entries, keys: seq<string>)
    requires forall key <- keys :: key in entries
  {
    && value.Some? && value.value.Roster?
    && value.value.queueId == Some(row.id) && value.value.body == row.body
    && value.value.revision.Some? && FollowsOn(entries, keys, row.id, value.value.revision.value)
  }

  lemma RosterIs(entries: Entries, order: seq<string>, org: string, row: QueueRow)
    requires Listed(entries, order)
    ensures var keys := Select(order, Range(org));
            IsRosterOf(Some(RosterOf(row, Previous(entries, keys))), row, entries, keys)
  {
    hide Matches, Select, Previous, FollowsOn;
    RevisionAdvances(entries, order, org, row);
  }

  // ---- the order of tenants ------------------------------------------------------------------

  /** The final bucket does not depend on the order the tenants are visited in. */
  lemma TenantOrderIsImmaterial(entries: Entries, order: seq<string>, tenants: seq<Tenant>, other: seq<Tenant>)
    requires Listed(entries, order)
    requires WellFormed(tenants) && AllKeyable(tenants) && WellFormed(other)
    requires multiset(tenants) == multiset(other)
    ensures AllKeyable(other)
    ensures RunFinal(entries, order, tenants) == RunFinal(entries, order, other)
  {
    forall tenant ensures tenant in tenants <==> tenant in other {
      assert tenant in tenants <==> tenant in multiset(tenants);
      assert tenant in other <==> tenant in multiset(other);
    }
    hide Matches, RunFinal, WellFormed, TenantWanted, Keyable;
    var one, two := RunFinal(entries, order, tenants), RunFinal(entries, order, other);
    forall key ensures At(one, key) == At(two, key) {
      RunFinalAt(entries, order, tenants, key);
      RunFinalAt(entries, order, other, key);
    }
    SameBucket(one, two);
  }

  // ---- revisions -----------------------------------------------------------------------------

  predicate Names(value: Value, id: string) {
    value.Roster? && value.queueId == Some(id)
  }

  /** Position `i` holds the last roster listed that names the queue. */
  predicate LastNaming(entries: Entries, keys: seq<string>, id: string, i: nat)
    requires forall key <- keys :: key in entries
  {
    && i < |keys| && Names(entries[keys[i]], id)
    && forall j | i < j < |keys| :: !Names(entries[keys[j]], id)
  }

  lemma {:induction false} PreviousIsLastNaming(entries: Entries, keys: seq<string>, id: string)
    requires forall key <- keys :: key in entries
    ensures id !in Previous(entries, keys) ==> forall key <- keys :: !Names(entries[key], id)
    ensures id in Previous(entries, keys) ==>
              exists i: nat :: LastNaming(entries, keys, id, i)
                               && Previous(entries, keys)[id] == Revision(Some(entries[keys[i]]))
  {
    if keys == [] {
    } else {
      var front, n := keys[..|keys| - 1], |keys| - 1;
      assert keys[n] in keys && forall key <- front :: key in keys;
      PreviousIsLastNaming(entries, front, id);
      if Names(entries[keys[n]], id) {
        assert LastNaming(entries, keys, id, n);
      } else if id in Previous(entries, front) {
        var i: nat :| LastNaming(entries, front, id, i)
                      && Previous(entries, front)[id] == Revision(Some(entries[front[i]]));
        assert LastNaming(entries, keys, id, i) && keys[i] == front[i];
      }
    }
  }

  /** `revision` follows on from the last roster listed that names the queue, or starts at one. */
  ghost predicate FollowsOn(entries: Entries, keys: seq<string>, id: string, revision: int)
    requires forall key <- keys :: key in entries
  {
    || (exists i: nat :: LastNaming(entries, keys, id, i) && revision == Revision(Some(entries[keys[i]])) + 1)
    || ((forall key <- keys :: !Names(entries[key], id)) && revision == 1)
  }

  /** The counter advances, for every bucket: a queue's roster is written at one more than the revision of the
      last roster listed in the range that names the queue, wherever it is stored, and at one if none does. */
  lemma RevisionAdvances(entries: Entries, order: seq<string>, org: string, row: QueueRow)
    requires Listed(entries, order)
    ensures var keys := Select(order, Range(org));
            var roster := RosterOf(row, Previous(entries, keys));
            roster.revision.Some? && FollowsOn(entries, keys, row.id, roster.revision.value)
  {
    hide Matches, Select, Previous, LastNaming, Names, Revision;
    PreviousIsLastNaming(entries, Select(order, Range(org)), row.id);
  }

  /** Every readable roster of the tenant is stored under the key of the queue it names. */
  predicate WellKeyed(entries: Entries, org: string) {
    forall key <- entries | Matches(Range(org), key) && entries[key].Roster? && entries[key].queueId.Some? ::
      OrgKey(org, "queueId", entries[key].queueId.value) == Ok(key)
  }

  function Revision(value: Option<Value>): int {
    if value.Some? && value.value.Roster? && value.value.queueId.Some? && value.value.revision.Some?
    then value.value.revision.value else 0
  }

  /** So in a bucket with every roster under the key of its queue, each is rewritten at its own revision plus
      one, and a queue that had none starts at one. */
  lemma RevisionAdvancesInPlace(entries: Entries, order: seq<string>, org: string, row: QueueRow)
    requires Listed(entries, order) && WellKeyed(entries, org) && KeyOf(org, row).Ok?
    ensures RosterOf(row, Previous(entries, Select(order, Range(org)))).revision
         == Some(Revision(At(entries, KeyOf(org, row).value)) + 1)
  {
    var key := KeyOf(org, row).value;
    AnyRangeOnOrgKey(org, org, "queueId", row.id);
    PreviousOf(entries, Select(order, Range(org)), org, row);
  }

  lemma {:induction false} PreviousOf(entries: Entries, keys: seq<string>, org: string, row: QueueRow)
    requires WellKeyed(entries, org) && KeyOf(org, row).Ok?
    requires forall key <- keys :: key in entries && Matches(Range(org), key)
    ensures var previous, key := Previous(entries, keys), KeyOf(org, row).value;
            (if row.id in previous then previous[row.id] else 0)
            == if key in keys then Revision(At(entries, key)) else 0
  {
    hide Matches, OrgKey;
    if keys == [] {
    } else {
      var front, last := keys[..|keys| - 1], keys[|keys| - 1];
      assert keys == front + [last] && last in keys;
      PreviousOf(entries, front, org, row);
      var value := entries[last];
      if value.Roster? && value.queueId.Some? && value.queueId.value != row.id {
        if last == KeyOf(org, row).value {
          OrgKeyInjective(org, "queueId", row.id, org, "queueId", value.queueId.value);
        }
      }
      if !(value.Roster? && value.queueId.Some?) && last == KeyOf(org, row).value {
        assert Revision(At(entries, last)) == 0;
      }
    }
  }

  // ---- the removal count ---------------------------------------------------------------------

  function Gone(entries: Entries, order: seq<string>, tenants: seq<Tenant>): set<string>
    requires forall key <- order :: key in entries
    requires AllKeyable(tenants)
  {
    entries.Keys - RunFinal(entries, order, tenants).Keys
  }

  /** `removed` is exactly the number of keys the bucket held and no longer holds. */
  lemma {:induction false} RemovedCountsGoneKeys(entries: Entries, order: seq<string>, tenants: seq<Tenant>)
    requires Listed(entries, order) && WellFormed(tenants) && AllKeyable(tenants)
    ensures RunRemoved(entries, order, tenants) == |Gone(entries, order, tenants)|
  {
    if tenants == [] {
      assert Gone(entries, order, tenants) == {};
    } else {
      var front, last := tenants[..|tenants| - 1], tenants[|tenants| - 1];
      assert last in tenants && forall tenant <- front :: tenant in tenants;
      RemovedCountsGoneKeys(entries, order, front);
      hide Matches, TenantWanted, RunFinal, Gone, Keyable, WellFormed, SubjectToken;
      GoneSplits(entries, order, tenants);
    }
  }

  lemma GoneSplits(entries: Entries, order: seq<string>, tenants: seq<Tenant>)
    requires Listed(entries, order) && tenants != [] && WellFormed(tenants) && AllKeyable(tenants)
    ensures var front, last := tenants[..|tenants| - 1], tenants[|tenants| - 1];
            && AllKeyable(front)
            && var dropped := InRange(entries, last.org) - TenantWanted(entries, order, last).Keys;
               Gone(entries, order, tenants) == Gone(entries, order, front) + dropped
               && Gone(entries, order, front) !! dropped
  {
    hide Matches, TenantWanted, RunFinal, Gone, Keyable, WellFormed, SubjectToken;
    var front, last := tenants[..|tenants| - 1], tenants[|tenants| - 1];
    assert last in tenants && forall tenant <- front :: tenant in tenants;
    var dropped := InRange(entries, last.org) - TenantWanted(entries, order, last).Keys;
    forall key
      ensures key in Gone(entries, order, tenants) <==> key in Gone(entries, order, front) || key in dropped
      ensures !(key in Gone(entries, order, front) && key in dropped)
    {
      GoneAt(entries, order, tenants, key);
    }
  }

  lemma GoneAt(entries: Entries, order: seq<string>, tenants: seq<Tenant>, key: string)
    requires Listed(entries, order) && tenants != [] && WellFormed(tenants) && AllKeyable(tenants)
    ensures var front, last := tenants[..|tenants| - 1], tenants[|tenants| - 1];
            && AllKeyable(front)
            && (Matches(Range(last.org), key) ==>
                  && (key in Gone(entries, order, tenants) <==>
                      key in entries && key !in TenantWanted(entries, order, last))
                  && key !in Gone(entries, order, front))
            && (!Matches(Range(last.org), key) ==>
                  (key in Gone(entries, order, tenants) <==> key in Gone(entries, order, front)))
  {
    hide Matches, TenantWanted, RunFinal, Keyable, SubjectToken;
    var front, last := tenants[..|tenants| - 1], tenants[|tenants| - 1];
    assert last in tenants && forall tenant <- front :: tenant in tenants;
    RunFinalAt(entries, order, front, key);
    LastTurnAt(entries, order, tenants, key);
    if Matches(Range(last.org), key) && Visited(front, key) {
      var tenant :| tenant in front && Matches(Range(tenant.org), key);
      FrontDiffers(tenants);
      RangesDisjoint(tenant.org, last.org, key);
      assert false;
    }
  }

  // ---- one organization named on the command line --------------------------------------------

  /** Read by its own id, an organization has the queues of the tables, or none; and only texts of uuids are read
      at all. */
  lemma ScopedReadByOwnId(tables: Tables, id: string, text: string)
    requires IsUuid(id)
    ensures id in tables ==> ScopedRead(tables, id) == Some(tables[id])
    ensures id !in tables ==> ScopedRead(tables, id) == Some([])
    ensures ScopedRead(tables, text).Some? <==> Cast(Trim(text)).Some?
  {
    hide Cast, IsUuid;
    CastOfUuid(id);
    CastIsTame(id);
    TrimOfTame(id);
  }

  /** A string the tenant scope accepts is never a wildcard, so a turn reaches a stored roster of a tenant
      exactly when the string is that tenant's id, letter by letter. */
  lemma TurnReaches(tables: Tables, entries: Entries, organization: string, orgId: string, queueId: string)
    requires ScopedRead(tables, organization).Some?
    requires OrgKey(orgId, "queueId", queueId).Ok? && OrgKey(orgId, "queueId", queueId).value in entries
    ensures var tenant := Tenant(organization, ScopedRead(tables, organization).value);
            OrgKey(orgId, "queueId", queueId).value in Touched(entries, tenant) <==> organization == orgId
  {
    hide Matches, Cast;
    var tenant := Tenant(organization, ScopedRead(tables, organization).value);
    var key := OrgKey(orgId, "queueId", queueId).value;
    AnyRangeOnOrgKey(organization, orgId, "queueId", queueId);
    WildcardIsNoUuid();
    if key !in InRange(entries, organization) && key in Touched(entries, tenant) {
      var row :| row in tenant.queues && KeyOf(organization, row).Ok? && KeyOf(organization, row).value == key;
      OrgKeyInjective(orgId, "queueId", queueId, organization, "queueId", row.id);
    }
  }

  lemma WildcardIsNoUuid()
    ensures Cast(Trim("*")).None?
  {
    assert TrimLeft("*") == "*" && TrimRight("*") == "*";
  }

  /** The scope reads the rows of the id a string names; the bucket is addressed by the string itself. Spelled
      in any other way the organization is read and its rosters are written, under keys of the spelling, while
      the rosters under its own id, which the engines read, stay as they were. */
  lemma OtherSpellingMissesItsTenant(
    tables: Tables, entries: Entries, order: seq<string>, organization: string, id: string, row: QueueRow)
    requires Listed(entries, order)
    requires Cast(Trim(organization)) == Some(id) && organization != id
    requires id in tables && row in tables[id] && UniqueIds(tables[id]) && Keyable(organization, tables[id])
    ensures ScopedRead(tables, organization) == Some(tables[id]) && KeyOf(id, row).Ok? && KeyOf(organization, row).Ok?
    ensures var after := TenantFinal(entries, order, Tenant(organization, tables[id]));
            && At(after, KeyOf(id, row).value) == At(entries, KeyOf(id, row).value)
            && At(after, KeyOf(organization, row).value)
               == Some(RosterOf(row, Previous(entries, Select(order, Range(organization)))))
  {
    hide Matches, Cast, Previous, RosterOf, Wanted;
    var previous := Previous(entries, Select(order, Range(organization)));
    NamedIdIsToken(organization, id);
    assert KeyOf(organization, row).Ok?;
    WantedAt(organization, tables[id], previous, row);
    StrayKey(tables[id], organization, id, row, previous);
    assert KeyOf(organization, row).value in Wanted(organization, tables[id], previous);
  }

  lemma NamedIdIsToken(organization: string, id: string)
    requires Cast(Trim(organization)) == Some(id)
    ensures SubjectToken(id)
  {
    hide Cast, IsUuid, Trim;
    CastIsTame(Trim(organization));
    CastOfUuid(id);
    UuidStart(id);
    SpellingIsToken(id);
  }

  /** The tenant's own key is neither among the keys the turn writes nor in the range it lists. */
  lemma StrayKey(queues: seq<QueueRow>, organization: string, id: string, row: QueueRow, previous: map<string, int>)
    requires KeyOf(id, row).Ok? && organization != id && Keyable(organization, queues)
    requires Cast(Trim(organization)).Some?
    ensures KeyOf(id, row).value !in Wanted(organization, queues, previous)
    ensures !Matches(Range(organization), KeyOf(id, row).value)
  {
    hide Matches, Cast, Wanted;
    var key := KeyOf(id, row).value;
    WildcardIsNoUuid();
    AnyRangeOnOrgKey(organization, id, "queueId", row.id);
    if key in Wanted(organization, queues, previous) {
      WantedInRange(Tenant(organization, queues), previous, key);
    }
  }

  /** Such spellings exist: the same letters in another case name the same id, and are as good a token. */
  lemma OtherCaseIsAnotherSpelling(tables: Tables, id: string, spelling: string)
    requires IsUuid(id) && Lower(spelling) == Lower(id) && spelling != id
    ensures SubjectToken(spelling) && Cast(Trim(spelling)) == Some(id)
    ensures ScopedRead(tables, spelling) == ScopedRead(tables, id)
  {
    hide Cast, IsUuid;
    CastOfUuid(id);
    CastIgnoresCase(spelling, id);
    UuidStart(id);
    SameLetters(spelling, id);
    CastIsTame(spelling);
    CastIsTame(id);
    SpellingIsToken(spelling);
    TrimOfTame(spelling);
    TrimOfTame(id);
  }

  lemma TrimOfTame(s: string)
    requires s != "" && forall c <- s :: !IsSpace(c)
    ensures Trim(s) == s
  {
    assert s[0] in s && s[|s| - 1] in s;
  }
}
