/** What the CDR codec keeps, loses and changes, for every record and every wire text. */
module CdrLaws {
  import opened Wrappers
  import opened Kv
  import opened Envelopes
  import opened CdrCodec
  import opened Text

  // ---- members and extras --------------------------------------------------------------------

  lemma BaseKeys(fields: seq<Field>, clock: Clock, slots: seq<Option<Value>>)
    requires Distinct(fields) && |slots| == |fields|
    ensures Base(fields, clock, slots).Keys <= Known(fields)
    ensures forall i | 0 <= i < |fields| ::
              if slots[i].Some?
              then fields[i].key in Base(fields, clock, slots)
                   && Base(fields, clock, slots)[fields[i].key] == EncodeValue(clock, slots[i].value)
              else fields[i].key !in Base(fields, clock, slots)
  {
    hide EncodeValue, Fold;
    assert forall i, j | 0 <= i < j < |fields| :: fields[i].key != fields[j].key;
  }

  lemma {:induction false} ReadFits(fields: seq<Field>, i: nat, clock: Clock, members: Object, keys: seq<string>)
    requires i < |fields| && forall key <- keys :: key in members
    ensures var slot := ReadField(fields, i, clock, members, keys);
            slot.Some? ==> SlotFits(fields[i], slot.value)
  {
    hide Hits;
    if keys == [] {
    } else {
      ReadFits(fields, i, clock, members, keys[..|keys| - 1]);
    }
  }

  /** Decoding puts in the extras exactly the keys outside the contract, with their values, and the
      result is a value of the struct type. */
  lemma DecodeSplitsKeys(fields: seq<Field>, clock: Clock, wire: Wire)
    requires Valid(wire) && Decode(fields, clock, wire).Some?
    ensures var v := Decode(fields, clock, wire).value;
            && WellTyped(fields, v)
            && v.extra.Keys == wire.members.Keys - Known(fields)
            && forall k <- v.extra :: v.extra[k] == wire.members[k]
  {
    hide ReadField;
    var v := Decode(fields, clock, wire).value;
    forall i | 0 <= i < |fields| ensures SlotFits(fields[i], v.slots[i]) {
      assert DecodeField(fields, i, clock, wire).Some?;
      ReadFits(fields, i, clock, wire.members, wire.order);
    }
  }

  /** Relaying a record loses and invents nothing outside the contract: every unknown key survives
      decode then encode with its value, and no other unknown key appears. */
  lemma UnknownKeysSurvive(fields: seq<Field>, clock: Clock, wire: Wire, key: string)
    requires Distinct(fields) && Valid(wire) && Decode(fields, clock, wire).Some?
    requires key !in Known(fields)
    ensures WellTyped(fields, Decode(fields, clock, wire).value)
    ensures var sent := Encode(fields, clock, Decode(fields, clock, wire).value);
            (key in sent <==> key in wire.members) && (key in wire.members ==> sent[key] == wire.members[key])
  {
    hide Distinct, Decode;
    DecodeSplitsKeys(fields, clock, wire);
    BaseKeys(fields, clock, Decode(fields, clock, wire).value.slots);
  }

  /** A pinned field that is emitted is emitted with its own value, whatever the extras hold. */
  lemma PinnedFieldWins(fields: seq<Field>, clock: Clock, v: Payload, i: nat)
    requires Distinct(fields) && WellTyped(fields, v)
    requires i < |fields| && v.slots[i].Some?
    ensures fields[i].key in Encode(fields, clock, v)
    ensures Encode(fields, clock, v)[fields[i].key] == EncodeValue(clock, v.slots[i].value)
  {
    hide Distinct, EncodeValue;
    BaseKeys(fields, clock, v.slots);
  }

  /** What an emitted field is written as. */
  lemma FieldIsWritten(fields: seq<Field>, clock: Clock, v: Payload, i: nat)
    requires Distinct(fields) && WellTyped(fields, v) && i < |fields|
    ensures var key, sent := fields[i].key, Encode(fields, clock, v);
            && (v.slots[i].Some? ==> key in sent)
            && (v.slots[i].Some? && v.slots[i].value.TextValue? ==> sent[key] == JsonString(v.slots[i].value.text))
            && (v.slots[i].Some? && v.slots[i].value.IntValue? ==> sent[key] == JsonInt(v.slots[i].value.number))
            && (v.slots[i].Some? && v.slots[i].value.TimeValue? ==>
                  sent[key] == JsonString(clock.format(v.slots[i].value.nanos)))
            && (v.slots[i].None? ==> (key in sent <==> key in v.extra))
  {
    hide Distinct, Base;
    BaseKeys(fields, clock, v.slots);
  }

  // ---- the last member wins ------------------------------------------------------------------

  predicate Effective(fields: seq<Field>, i: nat, members: Object, key: string)
    requires i < |fields| && key in members
  {
    Hits(fields, i, key) && !NoOp(fields[i], members[key])
  }

  predicate AllAccepted(fields: seq<Field>, i: nat, clock: Clock, members: Object, keys: seq<string>)
    requires i < |fields| && forall key <- keys :: key in members
  {
    forall key <- keys | Hits(fields, i, key) :: Accepts(fields[i], clock, members[key])
  }

  function LastEffect(fields: seq<Field>, i: nat, members: Object, keys: seq<string>): (r: Option<string>)
    requires i < |fields| && forall key <- keys :: key in members
    ensures r.Some? ==> r.value in keys && Effective(fields, i, members, r.value)
  {
    if keys == [] then None
    else
      var front, last := keys[..|keys| - 1], keys[|keys| - 1];
      if Effective(fields, i, members, last) then Some(last) else LastEffect(fields, i, members, front)
  }

  /** For every wire text: a field can be read exactly when every member read into it is acceptable, and then
      it is what the last of them with an effect makes it, or its zero value if there is none. */
  lemma {:induction false} LastMemberWins(
    fields: seq<Field>, i: nat, clock: Clock, members: Object, keys: seq<string>)
    requires i < |fields| && forall key <- keys :: key in members
    ensures var slot, last := ReadField(fields, i, clock, members, keys), LastEffect(fields, i, members, keys);
            && (slot.Some? <==> AllAccepted(fields, i, clock, members, keys))
            && (slot.Some? && last.None? ==> slot.value == Zero(fields[i]))
            && (slot.Some? && last.Some? ==>
                  Accepts(fields[i], clock, members[last.value])
                  && slot.value == ValueOf(fields[i], clock, members[last.value]))
  {
    hide Hits, Accepts, ValueOf, NoOp, Zero;
    if keys == [] {
    } else {
      var front, last := keys[..|keys| - 1], keys[|keys| - 1];
      assert keys == front + [last];
      LastMemberWins(fields, i, clock, members, front);
      assert AllAccepted(fields, i, clock, members, keys) <==>
             AllAccepted(fields, i, clock, members, front)
             && (Hits(fields, i, last) ==> Accepts(fields[i], clock, members[last]));
    }
  }

  /** The member that decides a field when the members are sorted. */
  predicate Winner(fields: seq<Field>, i: nat, members: Object, key: string)
    requires i < |fields|
  {
    && key in members && Effective(fields, i, members, key)
    && forall other <- members | Effective(fields, i, members, other) && other != key :: Before(other, key)
  }

  lemma {:induction false} LastEffectIsLast(fields: seq<Field>, i: nat, members: Object, keys: seq<string>)
    requires i < |fields| && forall key <- keys :: key in members
    ensures var last := LastEffect(fields, i, members, keys);
            && (last.None? ==> forall key <- keys :: !Effective(fields, i, members, key))
            && (last.Some? ==>
                  exists p | 0 <= p < |keys| ::
                    keys[p] == last.value && forall q | p < q < |keys| :: !Effective(fields, i, members, keys[q]))
  {
    hide Effective;
    if keys == [] {
    } else {
      var front, n := keys[..|keys| - 1], |keys| - 1;
      assert keys == front + [keys[n]];
      LastEffectIsLast(fields, i, members, front);
      if !Effective(fields, i, members, keys[n]) {
        var last := LastEffect(fields, i, members, front);
        if last.Some? {
          var p :| 0 <= p < |front| && front[p] == last.value
                   && forall q | p < q < |front| :: !Effective(fields, i, members, front[q]);
          assert keys[p] == last.value && forall q | p < q < |keys| :: !Effective(fields, i, members, keys[q]);
        }
      } else {
        assert keys[n] == LastEffect(fields, i, members, keys).value;
      }
    }
  }

  lemma SortedWinner(fields: seq<Field>, i: nat, wire: Wire)
    requires i < |fields| && Valid(wire) && Sorted(wire.order)
    ensures var last := LastEffect(fields, i, wire.members, wire.order);
            last.Some? ==> Winner(fields, i, wire.members, last.value)
  {
    hide Effective, LastEffect, Before;
    var members, order := wire.members, wire.order;
    LastEffectIsLast(fields, i, members, order);
    var last := LastEffect(fields, i, members, order);
    if last.Some? {
      var p :| 0 <= p < |order| && order[p] == last.value
               && forall q | p < q < |order| :: !Effective(fields, i, members, order[q]);
      forall other <- members | Effective(fields, i, members, other) && other != last.value
        ensures Before(other, last.value)
      {
        var q :| 0 <= q < |order| && order[q] == other;
        assert q < p;
      }
    }
  }

  /** Without extras, only its own member is read into a field. */
  lemma OwnMemberOnly(fields: seq<Field>, clock: Clock, v: Payload, i: nat)
    requires Distinct(fields) && WellTyped(fields, v) && i < |fields| && v.extra == map[]
    ensures forall key <- Encode(fields, clock, v) :: Hits(fields, i, key) ==> key == fields[i].key
  {
    hide Distinct;
    BaseKeys(fields, clock, v.slots);
  }

  lemma EncodedWinner(fields: seq<Field>, clock: Clock, v: Payload, wire: Wire, i: nat)
    requires Distinct(fields) && WellTyped(fields, v) && IsEncoding(fields, clock, v, wire) && i < |fields|
    ensures var last := LastEffect(fields, i, wire.members, wire.order);
            && (last.Some? ==> Winner(fields, i, wire.members, last.value))
            && (last.None? ==> forall key <- wire.members :: !Effective(fields, i, wire.members, key))
  {
    hide Distinct, Encode, LastEffect, Before, Sorted;
    LastEffectIsLast(fields, i, wire.members, wire.order);
    if v.extra == map[] {
      OwnMemberOnly(fields, clock, v, i);
    } else {
      SortedWinner(fields, i, wire);
    }
  }

  // ---- what a member means -------------------------------------------------------------------

  /** No other member of the text spells the key of field `i`. */
  predicate OnlySpelling(fields: seq<Field>, i: nat, wire: Wire)
    requires i < |fields|
  {
    forall key <- wire.members | Fold(key) == Fold(fields[i].key) :: key == fields[i].key
  }

  lemma OwnMemberDecides(fields: seq<Field>, i: nat, clock: Clock, wire: Wire)
    requires i < |fields| && Valid(wire) && OnlySpelling(fields, i, wire) && fields[i].key in wire.members
    ensures var json, slot := wire.members[fields[i].key], DecodeField(fields, i, clock, wire);
            && (slot.Some? <==> Accepts(fields[i], clock, json))
            && (slot.Some? && NoOp(fields[i], json) ==> slot.value == Zero(fields[i]))
            && (slot.Some? && !NoOp(fields[i], json) ==> slot.value == ValueOf(fields[i], clock, json))
  {
    hide ReadField, LastEffect, Accepts, NoOp, ValueOf, Zero;
    LastMemberWins(fields, i, clock, wire.members, wire.order);
    LastEffectIsLast(fields, i, wire.members, wire.order);
    OwnKeyHits(fields, i);
  }

  lemma OwnKeyHits(fields: seq<Field>, i: nat)
    requires i < |fields|
    ensures Hits(fields, i, fields[i].key)
  {
  }

  /** What the value under a field's own key decodes to, when nothing else spells the key: a null to an empty
      optional field, which is then not emitted, and to the zero value of the others; text, a 64-bit integer
      and a readable instant to themselves. */
  lemma MemberDecodesTo(fields: seq<Field>, i: nat, clock: Clock, wire: Wire)
    requires Distinct(fields) && i < |fields| && Valid(wire) && Decode(fields, clock, wire).Some?
    requires OnlySpelling(fields, i, wire) && fields[i].key in wire.members
    ensures WellTyped(fields, Decode(fields, clock, wire).value)
    ensures var v, json, field := Decode(fields, clock, wire).value, wire.members[fields[i].key], fields[i];
            && (json == JsonNull && field.optional ==> v.slots[i] == None && field.key !in Encode(fields, clock, v))
            && (json == JsonNull && !field.optional && field.kind == Words ==> v.slots[i] == Some(TextValue("")))
            && (json == JsonNull && !field.optional && field.kind == Integer ==> v.slots[i] == Some(IntValue(0)))
            && (field.kind == Words && json.JsonString? ==> v.slots[i] == Some(TextValue(json.text)))
            && (field.kind == Integer && json.JsonInt? ==> v.slots[i] == Some(IntValue(json.number)))
            && (field.kind == Instant && json.JsonString? ==>
                  clock.parse(json.text).Some?
                  && v.slots[i] == Some(TimeValue(clock.parse(json.text).value)))
  {
    hide ReadField, Distinct, Base;
    OwnMemberDecides(fields, i, clock, wire);
    DecodeSplitsKeys(fields, clock, wire);
    var v := Decode(fields, clock, wire).value;
    BaseKeys(fields, clock, v.slots);
    assert fields[i].key in Known(fields);
  }

  /** And what is refused: anything else under a field's own key, unless it is a null that the field can take. */
  lemma MemberIsRefused(fields: seq<Field>, i: nat, clock: Clock, wire: Wire)
    requires i < |fields| && Valid(wire) && OnlySpelling(fields, i, wire) && fields[i].key in wire.members
    ensures var json, field := wire.members[fields[i].key], fields[i];
            DecodeField(fields, i, clock, wire).Some? <==>
            || (json == JsonNull && (field.kind != Instant || field.optional))
            || (field.kind == Words && json.JsonString?)
            || (field.kind == Integer && json.JsonInt? && -0x8000_0000_0000_0000 <= json.number < 0x8000_0000_0000_0000)
            || (field.kind == Instant && json.JsonString? && clock.parse(json.text).Some?)
  {
    hide ReadField;
    OwnMemberDecides(fields, i, clock, wire);
  }

  /** A key that nothing spells leaves an optional field empty and the others at their zero values. */
  lemma AbsentMember(fields: seq<Field>, i: nat, clock: Clock, wire: Wire)
    requires i < |fields| && Valid(wire) && forall key <- wire.members :: Fold(key) != Fold(fields[i].key)
    ensures var slot, field := DecodeField(fields, i, clock, wire), fields[i];
            && slot.Some?
            && (field.optional ==> slot.value == None)
            && (!field.optional ==>
                  slot.value == Some(match field.kind
                                     case Words => TextValue("")
                                     case Integer => IntValue(0)
                                     case Instant => TimeValue(0)))
  {
    hide ReadField, LastEffect, Fold;
    LastMemberWins(fields, i, clock, wire.members, wire.order);
  }

  // ---- what arrives --------------------------------------------------------------------------

  predicate AllMembersAccepted(fields: seq<Field>, i: nat, clock: Clock, members: Object)
    requires i < |fields|
  {
    forall key <- members | Hits(fields, i, key) :: Accepts(fields[i], clock, members[key])
  }

  /** What decoding makes of an encoded record, for every record: nothing unless every member read into a field
      is acceptable, and then each field as its greatest key, up to case, makes it, and the other extras. */
  lemma DecodeOfEncode(fields: seq<Field>, clock: Clock, v: Payload, wire: Wire)
    requires Distinct(fields) && WellTyped(fields, v) && IsEncoding(fields, clock, v, wire)
    ensures var got := Decode(fields, clock, wire);
            && (got.Some? <==> forall i | 0 <= i < |fields| :: AllMembersAccepted(fields, i, clock, wire.members))
            && (got.Some? ==>
                  && got.value.extra == v.extra - Known(fields) && |got.value.slots| == |fields|
                  && forall i | 0 <= i < |fields| :: ArrivesAs(fields, i, clock, wire.members, got.value.slots[i]))
  {
    hide DecodeField, Encode, ArrivesAs, AllMembersAccepted;
    forall i | 0 <= i < |fields|
      ensures var slot := DecodeField(fields, i, clock, wire);
              && (slot.Some? <==> AllMembersAccepted(fields, i, clock, wire.members))
              && (slot.Some? ==> ArrivesAs(fields, i, clock, wire.members, slot.value))
    {
      FieldArrives(fields, clock, v, wire, i);
    }
    EncodedExtras(fields, clock, v);
  }

  lemma EncodedExtras(fields: seq<Field>, clock: Clock, v: Payload)
    requires Distinct(fields) && WellTyped(fields, v)
    ensures Encode(fields, clock, v) - Known(fields) == v.extra - Known(fields)
  {
    hide Distinct, Base;
    BaseKeys(fields, clock, v.slots);
  }

  predicate DecidedBy(fields: seq<Field>, i: nat, clock: Clock, members: Object, slot: Option<Value>, key: string)
    requires i < |fields|
  {
    && Winner(fields, i, members, key) && Accepts(fields[i], clock, members[key])
    && slot == ValueOf(fields[i], clock, members[key])
  }

  ghost predicate ArrivesAs(fields: seq<Field>, i: nat, clock: Clock, members: Object, slot: Option<Value>)
    requires i < |fields|
  {
    || (exists key :: DecidedBy(fields, i, clock, members, slot, key))
    || ((forall key <- members :: !Effective(fields, i, members, key)) && slot == Zero(fields[i]))
  }

  lemma OneWinner(fields: seq<Field>, i: nat, members: Object, a: string, b: string)
    requires i < |fields| && Winner(fields, i, members, a) && Winner(fields, i, members, b)
    ensures a == b
  {
    if a != b {
      BeforeIsStrict(a, b);
    }
  }

  lemma FieldArrives(fields: seq<Field>, clock: Clock, v: Payload, wire: Wire, i: nat)
    requires Distinct(fields) && WellTyped(fields, v) && IsEncoding(fields, clock, v, wire) && i < |fields|
    ensures var slot := DecodeField(fields, i, clock, wire);
            && (slot.Some? <==> AllMembersAccepted(fields, i, clock, wire.members))
            && (slot.Some? ==> ArrivesAs(fields, i, clock, wire.members, slot.value))
  {
    LastMemberWins(fields, i, clock, wire.members, wire.order);
    EncodedWinner(fields, clock, v, wire, i);
    hide Hits, Accepts, ValueOf, Zero, NoOp, ReadField, LastEffect, Encode, Before, Winner;
    var slot, last := DecodeField(fields, i, clock, wire), LastEffect(fields, i, wire.members, wire.order);
    if slot.Some? && last.Some? {
      assert DecidedBy(fields, i, clock, wire.members, slot.value, last.value);
    }
  }

  // ---- in terms of the record ----------------------------------------------------------------

  function TruncateSlot(slot: Option<Value>): Option<Value> {
    if slot.Some? && slot.value.TimeValue? then Some(TimeValue(ToMillis(slot.value.nanos))) else slot
  }

  /** The value at the precision the wire carries. */
  function Truncated(v: Payload): Payload {
    v.(slots := seq(|v.slots|, i requires 0 <= i < |v.slots| => TruncateSlot(v.slots[i])))
  }

  predicate SlotInYears(slot: Option<Value>) {
    slot.Some? && slot.value.TimeValue? ==> InYears(slot.value.nanos)
  }

  predicate TimesInYears(v: Payload) {
    forall i | 0 <= i < |v.slots| :: SlotInYears(v.slots[i])
  }

  predicate AtMillis(v: Payload) {
    forall i | 0 <= i < |v.slots| :: TruncateSlot(v.slots[i]) == v.slots[i]
  }

  /** The extra is read into field `i`: it spells the field's key, in whatever case, and is not hidden by the
      emitted field itself. */
  predicate Reaches(fields: seq<Field>, v: Payload, i: nat, key: string)
    requires |v.slots| == |fields| && i < |fields|
  {
    key in v.extra && Hits(fields, i, key) && (key == fields[i].key ==> v.slots[i].None?)
  }

  predicate ExtrasAccepted(fields: seq<Field>, clock: Clock, v: Payload, i: nat)
    requires |v.slots| == |fields| && i < |fields|
  {
    forall key <- v.extra | Reaches(fields, v, i, key) :: Accepts(fields[i], clock, v.extra[key])
  }

  /** Where the members read into field `i` come from. */
  lemma MembersOf(fields: seq<Field>, clock: Clock, v: Payload, i: nat, key: string)
    requires Distinct(fields) && WellTyped(fields, v) && i < |fields| && Hits(fields, i, key)
    ensures var members := Encode(fields, clock, v);
            && (key in members <==> Reaches(fields, v, i, key) || (key == fields[i].key && v.slots[i].Some?))
            && (Reaches(fields, v, i, key) ==> members[key] == v.extra[key])
            && (key == fields[i].key && v.slots[i].Some? ==> members[key] == EncodeValue(clock, v.slots[i].value))
  {
    hide Distinct, EncodeValue, Base, WellTyped;
    assert |v.slots| == |fields| by { SlotCount(fields, v); }
    BaseKeys(fields, clock, v.slots);
  }

  lemma SlotCount(fields: seq<Field>, v: Payload)
    requires WellTyped(fields, v)
    ensures |v.slots| == |fields|
  {
  }

  /** The emitted field is read back at wire precision, if at all. */
  lemma OwnMember(field: Field, clock: Clock, slot: Option<Value>)
    requires Lawful(clock) && SlotFits(field, slot) && slot.Some?
    ensures var json := EncodeValue(clock, slot.value);
            && !NoOp(field, json)
            && (Accepts(field, clock, json) <==> SlotInYears(slot))
            && (Accepts(field, clock, json) ==> ValueOf(field, clock, json) == TruncateSlot(slot))
  {
  }

  lemma FieldIsReadable(fields: seq<Field>, clock: Clock, v: Payload, i: nat)
    requires Distinct(fields) && WellTyped(fields, v) && Lawful(clock) && i < |fields|
    ensures AllMembersAccepted(fields, i, clock, Encode(fields, clock, v)) <==>
            SlotInYears(v.slots[i]) && ExtrasAccepted(fields, clock, v, i)
  {
    hide Distinct, Lawful, Encode, EncodeValue, Accepts, Hits, SlotInYears;
    var members := Encode(fields, clock, v);
    assert SlotFits(fields[i], v.slots[i]);
    if v.slots[i].Some? {
      OwnMember(fields[i], clock, v.slots[i]);
      OwnKeyHits(fields, i);
      MembersOf(fields, clock, v, i, fields[i].key);
    } else {
      NoInstant(v.slots[i]);
    }
    forall key | Hits(fields, i, key)
      ensures key in members <==> Reaches(fields, v, i, key) || (key == fields[i].key && v.slots[i].Some?)
      ensures Reaches(fields, v, i, key) ==> members[key] == v.extra[key]
    {
      MembersOf(fields, clock, v, i, key);
    }
  }

  lemma NoInstant(slot: Option<Value>)
    requires slot.None?
    ensures SlotInYears(slot)
  {
  }

  /** A record can be read back at all exactly when its instants are in years 0 to 9999 and each extra that
      spells the key of a field, in whatever case, is something that field accepts. */
  lemma EncodedIsReadable(fields: seq<Field>, clock: Clock, v: Payload, wire: Wire)
    requires Distinct(fields) && WellTyped(fields, v) && Lawful(clock) && IsEncoding(fields, clock, v, wire)
    ensures Decode(fields, clock, wire).Some? <==>
            TimesInYears(v) && forall i | 0 <= i < |fields| :: ExtrasAccepted(fields, clock, v, i)
  {
    hide Distinct, Lawful, Encode, ExtrasAccepted, SlotInYears, AllMembersAccepted, Decode, ArrivesAs;
    DecodeOfEncode(fields, clock, v, wire);
    forall i | 0 <= i < |fields|
      ensures AllMembersAccepted(fields, i, clock, wire.members) <==>
              SlotInYears(v.slots[i]) && ExtrasAccepted(fields, clock, v, i)
    {
      FieldIsReadable(fields, clock, v, i);
    }
  }

  /** The extra takes field `i` over: it is the greatest of the extras that spell its key and have an effect,
      and sorts after the key itself if the field is emitted. */
  predicate Steals(fields: seq<Field>, v: Payload, i: nat, key: string)
    requires |v.slots| == |fields| && i < |fields|
  {
    && Reaches(fields, v, i, key) && !NoOp(fields[i], v.extra[key])
    && (v.slots[i].Some? ==> Before(fields[i].key, key))
    && forall other <- v.extra | Reaches(fields, v, i, other) && !NoOp(fields[i], v.extra[other]) && other != key ::
         Before(other, key)
  }

  lemma StealerWins(fields: seq<Field>, clock: Clock, v: Payload, i: nat, key: string)
    requires Distinct(fields) && WellTyped(fields, v) && i < |fields| && Steals(fields, v, i, key)
    ensures Winner(fields, i, Encode(fields, clock, v), key)
    ensures Encode(fields, clock, v)[key] == v.extra[key]
  {
    hide Distinct, Encode, EncodeValue, Hits, Before, NoOp;
    var members := Encode(fields, clock, v);
    MembersOf(fields, clock, v, i, key);
    forall other <- members | Effective(fields, i, members, other) && other != key ensures Before(other, key) {
      MembersOf(fields, clock, v, i, other);
    }
  }

  lemma WinnerSteals(fields: seq<Field>, clock: Clock, v: Payload, i: nat, key: string)
    requires Distinct(fields) && WellTyped(fields, v) && Lawful(clock) && i < |fields|
    requires Winner(fields, i, Encode(fields, clock, v), key)
    ensures Steals(fields, v, i, key) || (key == fields[i].key && v.slots[i].Some?)
  {
    hide Distinct, Encode, EncodeValue, Hits, Before, NoOp, Lawful;
    var members := Encode(fields, clock, v);
    MembersOf(fields, clock, v, i, key);
    assert SlotFits(fields[i], v.slots[i]);
    if v.slots[i].Some? {
      OwnKeyHits(fields, i);
      MembersOf(fields, clock, v, i, fields[i].key);
      OwnMember(fields[i], clock, v.slots[i]);
      assert Effective(fields, i, members, fields[i].key);
    }
    forall other <- v.extra | Reaches(fields, v, i, other) && !NoOp(fields[i], v.extra[other]) && other != key
      ensures Before(other, key)
    {
      MembersOf(fields, clock, v, i, other);
      assert Effective(fields, i, members, other);
    }
  }

  /** What the receiver finds in a field: what took it over, if something did, and otherwise what was sent, at
      wire precision. */
  ghost predicate SlotArrives(fields: seq<Field>, clock: Clock, v: Payload, i: nat, slot: Option<Value>)
    requires |v.slots| == |fields| && i < |fields|
  {
    && (forall key | Steals(fields, v, i, key) ::
          Accepts(fields[i], clock, v.extra[key]) && slot == ValueOf(fields[i], clock, v.extra[key]))
    && ((forall key :: !Steals(fields, v, i, key)) ==> slot == TruncateSlot(v.slots[i]))
  }

  lemma StolenArrives(fields: seq<Field>, clock: Clock, v: Payload, i: nat, slot: Option<Value>, key: string)
    requires Distinct(fields) && WellTyped(fields, v) && i < |fields|
    requires ArrivesAs(fields, i, clock, Encode(fields, clock, v), slot) && Steals(fields, v, i, key)
    ensures Accepts(fields[i], clock, v.extra[key]) && slot == ValueOf(fields[i], clock, v.extra[key])
  {
    hide Distinct, Encode, Hits, Before, NoOp, Accepts, ValueOf, Zero;
    var members := Encode(fields, clock, v);
    StealerWins(fields, clock, v, i, key);
    if other :| DecidedBy(fields, i, clock, members, slot, other) {
      OneWinner(fields, i, members, key, other);
    }
  }

  lemma UnstolenArrives(fields: seq<Field>, clock: Clock, v: Payload, i: nat, slot: Option<Value>)
    requires Distinct(fields) && WellTyped(fields, v) && Lawful(clock) && i < |fields|
    requires ArrivesAs(fields, i, clock, Encode(fields, clock, v), slot)
    requires forall key :: !Steals(fields, v, i, key)
    ensures slot == TruncateSlot(v.slots[i])
  {
    hide Distinct, Encode, Hits, Before, Accepts, ValueOf, Lawful, EncodeValue, Steals, Winner, NoOp;
    var members, own := Encode(fields, clock, v), fields[i].key;
    assert SlotFits(fields[i], v.slots[i]);
    OwnKeyHits(fields, i);
    MembersOf(fields, clock, v, i, own);
    if v.slots[i].Some? {
      OwnMember(fields[i], clock, v.slots[i]);
      assert Effective(fields, i, members, own);
    }
    if key :| DecidedBy(fields, i, clock, members, slot, key) {
      WinnerSteals(fields, clock, v, i, key);
    }
  }

  /** For every record: what arrives, field by field, and the extras outside the contract. */
  lemma WhatArrives(fields: seq<Field>, clock: Clock, v: Payload, wire: Wire)
    requires Distinct(fields) && WellTyped(fields, v) && Lawful(clock) && IsEncoding(fields, clock, v, wire)
    requires Decode(fields, clock, wire).Some?
    ensures var got := Decode(fields, clock, wire).value;
            && got.extra == v.extra - Known(fields) && |got.slots| == |fields|
            && forall i | 0 <= i < |fields| :: SlotArrives(fields, clock, v, i, got.slots[i])
  {
    hide Distinct, Encode, Lawful, Decode, ArrivesAs, Steals, AllMembersAccepted;
    DecodeOfEncode(fields, clock, v, wire);
    var got := Decode(fields, clock, wire).value;
    forall i | 0 <= i < |fields| ensures SlotArrives(fields, clock, v, i, got.slots[i]) {
      forall key | Steals(fields, v, i, key)
        ensures key in v.extra && Accepts(fields[i], clock, v.extra[key])
        ensures got.slots[i] == ValueOf(fields[i], clock, v.extra[key])
      {
        StealerIsExtra(fields, v, i, key);
        StolenArrives(fields, clock, v, i, got.slots[i], key);
      }
      if forall key :: !Steals(fields, v, i, key) {
        UnstolenArrives(fields, clock, v, i, got.slots[i]);
      }
    }
  }

  lemma StealerIsExtra(fields: seq<Field>, v: Payload, i: nat, key: string)
    requires |v.slots| == |fields| && i < |fields| && Steals(fields, v, i, key)
    ensures key in v.extra
  {
  }

  // ---- round trips ---------------------------------------------------------------------------

  lemma OneArrival(fields: seq<Field>, clock: Clock, v: Payload, i: nat, a: Option<Value>, b: Option<Value>)
    requires |v.slots| == |fields| && i < |fields|
    requires SlotArrives(fields, clock, v, i, a) && SlotArrives(fields, clock, v, i, b)
    ensures a == b
  {
    hide Steals, ValueOf, Accepts, TruncateSlot;
    if key :| Steals(fields, v, i, key) {
      StealerIsExtra(fields, v, i, key);
    }
  }

  /** Decode undoes encode, for a record and any text it is written as, exactly when no extra is under a pinned
      key, every instant is in years 0 to 9999, every extra that spells a pinned key in another case is
      acceptable there, and each field is either a whole millisecond and not taken over, or taken over by an
      extra that says the same. */
  lemma RoundTripIsExact(fields: seq<Field>, clock: Clock, v: Payload, wire: Wire)
    requires Distinct(fields) && WellTyped(fields, v) && Lawful(clock) && IsEncoding(fields, clock, v, wire)
    ensures Decode(fields, clock, wire) == Some(v) <==>
            && v.extra.Keys !! Known(fields) && TimesInYears(v)
            && (forall i | 0 <= i < |fields| :: ExtrasAccepted(fields, clock, v, i))
            && (forall i | 0 <= i < |fields| :: SlotArrives(fields, clock, v, i, v.slots[i]))
  {
    hide Distinct, Lawful, Decode, SlotArrives, ExtrasAccepted, TimesInYears, Encode;
    EncodedIsReadable(fields, clock, v, wire);
    var got := Decode(fields, clock, wire);
    if got.Some? {
      WhatArrives(fields, clock, v, wire);
      assert v.extra - Known(fields) == v.extra <==> v.extra.Keys !! Known(fields);
      if forall i | 0 <= i < |fields| :: SlotArrives(fields, clock, v, i, v.slots[i]) {
        forall i | 0 <= i < |fields| ensures got.value.slots[i] == v.slots[i] {
          OneArrival(fields, clock, v, i, got.value.slots[i], v.slots[i]);
        }
        assert got.value.slots == v.slots;
      }
    }
  }

  /** No extra spells a pinned key, in whatever case. */
  predicate Unspelled(fields: seq<Field>, v: Payload) {
    forall i, key | 0 <= i < |fields| && key in v.extra :: !Hits(fields, i, key)
  }

  lemma UnspelledIsHarmless(fields: seq<Field>, clock: Clock, v: Payload)
    requires |v.slots| == |fields| && Unspelled(fields, v)
    ensures v.extra.Keys !! Known(fields)
    ensures forall i | 0 <= i < |fields| :: ExtrasAccepted(fields, clock, v, i)
    ensures forall i, key | 0 <= i < |fields| :: !Steals(fields, v, i, key)
  {
    hide Accepts, Before, NoOp;
    forall i | 0 <= i < |fields| ensures fields[i].key !in v.extra {
      OwnKeyHits(fields, i);
    }
  }

  /** With extras that spell no pinned key, what arrives is what was sent, at wire precision, or nothing if some
      instant does not read back. */
  lemma EncodeThenDecode(fields: seq<Field>, clock: Clock, v: Payload, wire: Wire)
    requires Distinct(fields) && WellTyped(fields, v) && Lawful(clock) && IsEncoding(fields, clock, v, wire)
    requires Unspelled(fields, v)
    ensures Decode(fields, clock, wire) == if TimesInYears(v) then Some(Truncated(v)) else None
    ensures Decode(fields, clock, wire) == Some(v) <==> TimesInYears(v) && AtMillis(v)
  {
    hide Distinct, Lawful, Decode, ExtrasAccepted, TimesInYears, Encode, Steals, Unspelled;
    UnspelledIsHarmless(fields, clock, v);
    EncodedIsReadable(fields, clock, v, wire);
    var got := Decode(fields, clock, wire);
    if got.Some? {
      WhatArrives(fields, clock, v, wire);
      assert v.extra - Known(fields) == v.extra;
      forall i | 0 <= i < |fields| ensures got.value.slots[i] == TruncateSlot(v.slots[i]) {
        assert SlotArrives(fields, clock, v, i, got.value.slots[i]);
      }
      assert got.value.slots == Truncated(v).slots;
      WholeMillis(v);
    }
  }

  lemma WholeMillis(v: Payload)
    ensures Truncated(v) == v <==> AtMillis(v)
  {
    hide TruncateSlot;
    if AtMillis(v) {
      assert Truncated(v).slots == v.slots;
    } else {
      var i :| 0 <= i < |v.slots| && TruncateSlot(v.slots[i]) != v.slots[i];
      assert Truncated(v).slots[i] != v.slots[i];
    }
  }

  /** An extra under the key of an omitted field, if no other spells it, is emitted and arrives as that field. */
  lemma ExtraFillsOmittedField(fields: seq<Field>, clock: Clock, v: Payload, wire: Wire, i: nat)
    requires Distinct(fields) && WellTyped(fields, v) && Lawful(clock) && IsEncoding(fields, clock, v, wire)
    requires i < |fields| && v.slots[i].None? && fields[i].key in v.extra && v.extra[fields[i].key] != JsonNull
    requires forall key <- v.extra | Hits(fields, i, key) :: key == fields[i].key
    ensures var got := Decode(fields, clock, wire);
            got.Some? ==> got.value.slots[i].Some? && fields[i].key !in got.value.extra
  {
    hide Distinct, Lawful, Decode, Encode, Before;
    OwnKeyHits(fields, i);
    assert Steals(fields, v, i, fields[i].key);
    if Decode(fields, clock, wire).Some? {
      WhatArrives(fields, clock, v, wire);
      assert SlotArrives(fields, clock, v, i, Decode(fields, clock, wire).value.slots[i]);
      assert fields[i].key in Known(fields);
    }
  }

  // ---- relaying ------------------------------------------------------------------------------

  predicate SameOnWire(clock: Clock, a: Option<Value>, b: Option<Value>) {
    if a.Some? && b.Some? then EncodeValue(clock, a.value) == EncodeValue(clock, b.value) else a == b
  }

  /** Records are emitted alike exactly when their extras are and each of their fields is. */
  lemma SameEncoding(fields: seq<Field>, clock: Clock, a: Payload, b: Payload)
    requires Distinct(fields) && WellTyped(fields, a) && WellTyped(fields, b)
    requires a.extra == b.extra && a.extra.Keys !! Known(fields)
    ensures Encode(fields, clock, a) == Encode(fields, clock, b) <==>
            forall i | 0 <= i < |fields| :: SameOnWire(clock, a.slots[i], b.slots[i])
  {
    hide EncodeValue, Base, Distinct;
    BaseKeys(fields, clock, a.slots);
    BaseKeys(fields, clock, b.slots);
    var left, right := Base(fields, clock, a.slots), Base(fields, clock, b.slots);
    if forall i | 0 <= i < |fields| :: SameOnWire(clock, a.slots[i], b.slots[i]) {
      forall k | k in left || k in right ensures k in left && k in right && left[k] == right[k] {
        assert k in Known(fields);
        var i :| 0 <= i < |fields| && fields[i].key == k;
        assert SameOnWire(clock, a.slots[i], b.slots[i]);
      }
      assert left == right;
    }
    if Encode(fields, clock, a) == Encode(fields, clock, b) {
      forall i | 0 <= i < |fields| ensures SameOnWire(clock, a.slots[i], b.slots[i]) {
        var k := fields[i].key;
        assert k in Known(fields) && k !in a.extra;
        assert k in Encode(fields, clock, a) <==> k in Encode(fields, clock, b);
      }
    }
  }

  /** A decoded record's extras are under no pinned key, and those that spell one are acceptable there. */
  lemma DecodedExtras(fields: seq<Field>, clock: Clock, wire: Wire)
    requires Valid(wire) && Decode(fields, clock, wire).Some?
    ensures var v := Decode(fields, clock, wire).value;
            && WellTyped(fields, v) && v.extra.Keys !! Known(fields)
            && forall i | 0 <= i < |fields| :: ExtrasAccepted(fields, clock, v, i)
  {
    hide ReadField, Accepts, Hits;
    DecodeSplitsKeys(fields, clock, wire);
    var v := Decode(fields, clock, wire).value;
    forall i | 0 <= i < |fields| ensures ExtrasAccepted(fields, clock, v, i) {
      assert DecodeField(fields, i, clock, wire).Some?;
      LastMemberWins(fields, i, clock, wire.members, wire.order);
    }
  }

  lemma TruncatedIsSame(clock: Clock, slot: Option<Value>)
    requires Lawful(clock)
    ensures SameOnWire(clock, TruncateSlot(slot), slot)
  {
  }

  /** What a decodable record is relayed as decodes again exactly when its instants are in years 0 to 9999, and
      is then relayed unchanged exactly when no extra in another case takes over a field with something that is
      written differently. */
  lemma RelayIsStable(fields: seq<Field>, clock: Clock, wire: Wire, sent: Wire)
    requires Distinct(fields) && Lawful(clock) && Valid(wire) && Decode(fields, clock, wire).Some?
    requires WellTyped(fields, Decode(fields, clock, wire).value)
    requires IsEncoding(fields, clock, Decode(fields, clock, wire).value, sent)
    ensures var v, again := Decode(fields, clock, wire).value, Decode(fields, clock, sent);
            && (again.Some? <==> TimesInYears(v))
            && (again.Some? ==>
                  && WellTyped(fields, again.value) && again.value.extra == v.extra
                  && (Encode(fields, clock, again.value) == sent.members <==>
                      forall i, key | 0 <= i < |fields| && Steals(fields, v, i, key) ::
                        Accepts(fields[i], clock, v.extra[key])
                        && SameOnWire(clock, ValueOf(fields[i], clock, v.extra[key]), v.slots[i])))
  {
    hide Distinct, Lawful, Decode, ExtrasAccepted, TimesInYears, Steals, Encode, SameOnWire, Accepts, ValueOf;
    var v, again := Decode(fields, clock, wire).value, Decode(fields, clock, sent);
    DecodedExtras(fields, clock, wire);
    EncodedIsReadable(fields, clock, v, sent);
    if again.Some? {
      WhatArrives(fields, clock, v, sent);
      DecodeSplitsKeys(fields, clock, sent);
      assert v.extra - Known(fields) == v.extra;
      SameEncoding(fields, clock, again.value, v);
      forall i | 0 <= i < |fields|
        ensures SameOnWire(clock, again.value.slots[i], v.slots[i]) <==>
                forall key | Steals(fields, v, i, key) ::
                  && key in v.extra && Accepts(fields[i], clock, v.extra[key])
                  && SameOnWire(clock, ValueOf(fields[i], clock, v.extra[key]), v.slots[i])
      {
        RelayedSlot(fields, clock, v, i, again.value.slots[i]);
      }
    }
  }

  lemma RelayedSlot(fields: seq<Field>, clock: Clock, v: Payload, i: nat, slot: Option<Value>)
    requires Lawful(clock) && |v.slots| == |fields| && i < |fields| && SlotArrives(fields, clock, v, i, slot)
    ensures SameOnWire(clock, slot, v.slots[i]) <==>
            forall key | Steals(fields, v, i, key) ::
              && key in v.extra && Accepts(fields[i], clock, v.extra[key])
              && SameOnWire(clock, ValueOf(fields[i], clock, v.extra[key]), v.slots[i])
  {
    hide Lawful, Steals, SameOnWire, Accepts, ValueOf, TruncateSlot;
    TruncatedIsSame(clock, v.slots[i]);
    forall key | Steals(fields, v, i, key) ensures key in v.extra {
      StealerIsExtra(fields, v, i, key);
    }
  }

  /** Relaying settles: whatever the first relay changed, the second changes nothing more. */
  lemma RelaySettles(fields: seq<Field>, clock: Clock, wire: Wire, sent: Wire, resent: Wire)
    requires Distinct(fields) && Lawful(clock) && Valid(wire) && Decode(fields, clock, wire).Some?
    requires WellTyped(fields, Decode(fields, clock, wire).value)
    requires IsEncoding(fields, clock, Decode(fields, clock, wire).value, sent)
    requires Decode(fields, clock, sent).Some? && WellTyped(fields, Decode(fields, clock, sent).value)
    requires IsEncoding(fields, clock, Decode(fields, clock, sent).value, resent)
    requires TimesInYears(Decode(fields, clock, sent).value)
    ensures var last := Decode(fields, clock, resent);
            last.Some? && WellTyped(fields, last.value) && Encode(fields, clock, last.value) == resent.members
  {
    hide Distinct, Lawful, Decode, ExtrasAccepted, TimesInYears, Steals, Encode, SameOnWire, Accepts, ValueOf;
    var v, again := Decode(fields, clock, wire).value, Decode(fields, clock, sent).value;
    RelayIsStable(fields, clock, wire, sent);
    WhatArrives(fields, clock, v, sent);
    RelayIsStable(fields, clock, sent, resent);
    forall i, key | 0 <= i < |fields| && Steals(fields, again, i, key)
      ensures key in again.extra && Accepts(fields[i], clock, again.extra[key])
      ensures SameOnWire(clock, ValueOf(fields[i], clock, again.extra[key]), again.slots[i])
    {
      StealerIsExtra(fields, again, i, key);
      StillStolen(fields, clock, v, again, i, key);
      SameAsItself(clock, again.slots[i]);
    }
  }

  lemma SameAsItself(clock: Clock, slot: Option<Value>)
    ensures SameOnWire(clock, slot, slot)
  {
  }

  /** What takes a field over after a relay is what took it over before. */
  lemma StillStolen(fields: seq<Field>, clock: Clock, v: Payload, again: Payload, i: nat, key: string)
    requires |v.slots| == |again.slots| == |fields| && i < |fields| && again.extra == v.extra
    requires v.extra.Keys !! Known(fields)
    requires SlotArrives(fields, clock, v, i, again.slots[i]) && Steals(fields, again, i, key)
    ensures key in v.extra && Accepts(fields[i], clock, v.extra[key])
    ensures again.slots[i] == ValueOf(fields[i], clock, v.extra[key])
  {
    hide Accepts, ValueOf, Before, NoOp;
    assert fields[i].key in Known(fields);
    if !Steals(fields, v, i, key) {
      forall other ensures !Steals(fields, v, i, other) {
        if Steals(fields, v, i, other) && other != key {
          BeforeIsStrict(key, other);
        }
      }
    }
  }

  /** Half an hour before midnight on the last day of 9999, an hour west of Greenwich. */
  const LAST_EVENING := "9999-12-31T23:30:00-01:00"

  /** An instant that does not read back can come in on the wire: with an offset, the last hours of 9999 are
      year 10000 in UTC. The record is accepted, and what it is relayed as is not. */
  lemma LastEveningIsNotRelayed(fields: seq<Field>, clock: Clock, wire: Wire, sent: Wire, i: nat)
    requires Distinct(fields) && Lawful(clock) && Valid(wire)
    requires clock.parse(LAST_EVENING) == Some(3_652_059 * NANOS_PER_DAY + 1_800 * 1_000 * NANOS_PER_MILLI)
    requires i < |fields| && fields[i].kind == Instant && Decode(fields, clock, wire).Some?
    requires fields[i].key in wire.members && wire.members[fields[i].key] == JsonString(LAST_EVENING)
    requires forall key <- wire.members | Hits(fields, i, key) :: key == fields[i].key
    requires WellTyped(fields, Decode(fields, clock, wire).value)
    requires IsEncoding(fields, clock, Decode(fields, clock, wire).value, sent)
    ensures Decode(fields, clock, sent).None?
  {
    hide Distinct, Lawful, ReadField, LastEffect, Encode, Steals;
    var v := Decode(fields, clock, wire).value;
    OwnKeyHits(fields, i);
    LastMemberWins(fields, i, clock, wire.members, wire.order);
    LastEffectIsLast(fields, i, wire.members, wire.order);
    assert Effective(fields, i, wire.members, fields[i].key);
    assert v.slots[i] == Some(TimeValue(clock.parse(LAST_EVENING).value));
    RelayIsStable(fields, clock, wire, sent);
  }

  // ---- the CDR leg ---------------------------------------------------------------------------

  /** The pinned fields of `CDRLegWriteData`, in declaration order. */
  const CDR_LEG: seq<Field> := [
    Field("id", Words, false), Field("callId", Words, false), Field("leg", Words, false),
    Field("originatingLegId", Words, true), Field("bridgeLegId", Words, true), Field("direction", Words, false),
    Field("fromNumber", Words, false), Field("fromName", Words, true), Field("toNumber", Words, false),
    Field("destinationType", Words, false), Field("destinationRef", Words, true),
    Field("startedAt", Instant, false), Field("answeredAt", Instant, true), Field("endedAt", Instant, true),
    Field("durationMs", Integer, false), Field("billsecMs", Integer, false), Field("hangupCause", Words, false),
    Field("hangupCauseCode", Integer, false), Field("hangupSide", Words, true), Field("disposition", Words, false)
  ]

  /** The generated struct is an instance: no two of its twenty keys are equal, even up to case. */
  lemma CdrLegKeysDistinct()
    ensures Distinct(CDR_LEG) && |CDR_LEG| == 20
  {
    LegKeysStart();
    LegKeysDiffer();
    DistinctByShape(CDR_LEG);
  }

  lemma LegKeysStart()
    ensures forall i | 0 <= i < |CDR_LEG| :: CDR_LEG[i].key != "" && 'a' <= CDR_LEG[i].key[0] <= 'z'
  {
  }

  lemma LegKeysDiffer()
    ensures forall i, j | 0 <= i < j < |CDR_LEG| ::
              CDR_LEG[i].key != "" && CDR_LEG[j].key != ""
              && (|CDR_LEG[i].key| != |CDR_LEG[j].key| || CDR_LEG[i].key[0] != CDR_LEG[j].key[0])
  {
  }

  /** Keys that start in lower case and differ in length or start are distinct up to case. */
  lemma DistinctByShape(fields: seq<Field>)
    requires forall i | 0 <= i < |fields| :: fields[i].key != "" && 'a' <= fields[i].key[0] <= 'z'
    requires forall i, j | 0 <= i < j < |fields| ::
               |fields[i].key| != |fields[j].key| || fields[i].key[0] != fields[j].key[0]
    ensures Distinct(fields)
  {
    hide Fold;
    forall i, j | 0 <= i < j < |fields| ensures Fold(fields[i].key) != Fold(fields[j].key) {
      FoldShape(fields[i].key);
      FoldShape(fields[j].key);
    }
  }

  lemma {:induction false} FoldShape(s: string)
    ensures |Fold(s)| == |s|
    ensures s != "" && 'a' <= s[0] <= 'z' ==> Fold(s)[0] == s[0]
  {
    if s == "" {
    } else {
      FoldShape(s[1..]);
    }
  }

  /** A key in another case is not harmless: `callid` sorts after `callId`, and takes the call over. */
  lemma OtherCaseTakesOver(clock: Clock, v: Payload, wire: Wire, text: string)
    requires WellTyped(CDR_LEG, v) && Lawful(clock) && v.extra == map["callid" := JsonString(text)]
    ensures Distinct(CDR_LEG)
    ensures IsEncoding(CDR_LEG, clock, v, wire) && Decode(CDR_LEG, clock, wire).Some? ==>
              Decode(CDR_LEG, clock, wire).value.slots[1] == Some(TextValue(text))
  {
    hide Lawful, Decode, Encode;
    CdrLegKeysDistinct();
    CallIdStolen(v, text);
    if IsEncoding(CDR_LEG, clock, v, wire) && Decode(CDR_LEG, clock, wire).Some? {
      WhatArrives(CDR_LEG, clock, v, wire);
      assert SlotArrives(CDR_LEG, clock, v, 1, Decode(CDR_LEG, clock, wire).value.slots[1]);
    }
  }

  lemma CallIdStolen(v: Payload, text: string)
    requires |v.slots| == |CDR_LEG| && v.extra == map["callid" := JsonString(text)]
    ensures Steals(CDR_LEG, v, 1, "callid") && CDR_LEG[1].kind == Words
  {
    var a, b := "callId", "callid";
    assert CDR_LEG[1].key == a;
    assert a[..4] == b[..4];
    SameFold();
    OrderOfCallIds();
    assert b !in Known(CDR_LEG) by {
      forall i | 0 <= i < |CDR_LEG| ensures CDR_LEG[i].key != b {
        assert |CDR_LEG[i].key| != |b| || CDR_LEG[i].key[0] != b[0] || CDR_LEG[i].key[4] != b[4];
      }
    }
  }

  /** In a name a capital counts as its small letter, the long s and the Kelvin sign as `s` and `k`, and any
      other character as itself. */
  lemma NamesFold(c: char)
    ensures forall i | 0 <= i < 26 :: FoldChar(UPPER_CASE[i]) == LOWER_CASE[i] == FoldChar(LOWER_CASE[i])
    ensures FoldChar('\U{017F}') == 's' && FoldChar('\U{212A}') == 'k'
    ensures c !in UPPER_CASE && c != '\U{017F}' && c != '\U{212A}' ==> FoldChar(c) == c
  {
    LowerCharOf(c);
  }

  lemma SameFold()
    ensures Fold("callId") == Fold("callid")
  {
  }

  lemma OrderOfCallIds()
    ensures Before("callId", "callid")
  {
  }
}
