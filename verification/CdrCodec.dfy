/** The pass-through JSON codec of the loose CDR payload: a struct with pinned fields, plus every key
    outside the contract, carried verbatim.

    Field names are matched as Go's JSON package matches them: exactly if possible and otherwise up to case,
    member after member, so that a later member overrides an earlier one.

    The generated struct is given here as its field table, and the laws hold of any such table whose keys
    differ in more than case. Rendering and reading RFC 3339 text is a parameter. */
module CdrCodec {
  import opened Wrappers
  import opened Text
  import opened Kv
  import opened Envelopes

  /** A decoded JSON value. `Other` stands for what no pinned field accepts: fractions, arrays, objects. */
  datatype Json = JsonNull | JsonBool(bit: bool) | JsonInt(number: int) | JsonString(text: string) | Other(raw: string)

  type Object = map<string, Json>

  /** An object as text: its members, and the order they come in. */
  datatype Wire = Wire(members: Object, order: seq<string>)

  ghost predicate Valid(wire: Wire) {
    Lists(wire.order, wire.members.Keys)
  }

  datatype Kind = Words | Integer | Instant

  datatype Field = Field(key: string, kind: Kind, optional: bool)

  datatype Value = TextValue(text: string) | IntValue(number: int) | TimeValue(nanos: int)

  /** A payload struct: one slot per field of the table, empty only in an optional one, and the extras. */
  datatype Payload = Payload(slots: seq<Option<Value>>, extra: Object)

  // ---- instants ------------------------------------------------------------------------------

  /** `EventTime`: what it prints an instant as, and how it reads a text. */
  datatype Clock = Clock(format: int -> string, parse: string -> Option<int>)

  const NANOS_PER_DAY: int := 86_400 * 1_000 * NANOS_PER_MILLI

  /** The instants of years 0 to 9999 in UTC, counted from the start of year 1: the ones RFC 3339 can write. */
  predicate InYears(nanos: int) {
    -366 * NANOS_PER_DAY <= nanos < 3_652_059 * NANOS_PER_DAY
  }

  /** Output is at millisecond precision. It reads back as what was printed, except that a year of five
      digits, or a negative one, is printed too and does not read back. */
  ghost predicate Lawful(clock: Clock) {
    forall nanos ::
      && clock.format(nanos) == clock.format(ToMillis(nanos))
      && clock.parse(clock.format(nanos)) == if InYears(nanos) then Some(ToMillis(nanos)) else None
  }

  // ---- encoding ------------------------------------------------------------------------------

  /** Go's folding of a name, as far as it concerns ASCII names: letters lose their case, and the long s and
      the Kelvin sign count as letters. */
  function FoldChar(c: char): char {
    if c == '\U{017F}' then 's' else if c == '\U{212A}' then 'k' else LowerChar(c)
  }

  function Fold(s: string): string {
    if s == "" then "" else [FoldChar(s[0])] + Fold(s[1..])
  }

  /** No two keys are equal up to case. */
  predicate Distinct(fields: seq<Field>) {
    forall i, j | 0 <= i < j < |fields| :: Fold(fields[i].key) != Fold(fields[j].key)
  }

  function Known(fields: seq<Field>): set<string> {
    set i | 0 <= i < |fields| :: fields[i].key
  }

  predicate InInt64(n: int) {
    -0x8000_0000_0000_0000 <= n < 0x8000_0000_0000_0000
  }

  predicate HasKind(value: Value, kind: Kind) {
    match kind
    case Words => value.TextValue?
    case Integer => value.IntValue? && InInt64(value.number)
    case Instant => value.TimeValue?
  }

  predicate SlotFits(field: Field, slot: Option<Value>) {
    if slot.Some? then HasKind(slot.value, field.kind) else field.optional
  }

  /** A value of the struct type the table describes. */
  predicate WellTyped(fields: seq<Field>, v: Payload) {
    |v.slots| == |fields| && forall i | 0 <= i < |fields| :: SlotFits(fields[i], v.slots[i])
  }

  function EncodeValue(clock: Clock, value: Value): Json {
    match value
    case TextValue(text) => JsonString(text)
    case IntValue(number) => JsonInt(number)
    case TimeValue(nanos) => JsonString(clock.format(nanos))
  }

  /** `json.Marshal` of the struct without its extras: empty optional fields are omitted. */
  function Base(fields: seq<Field>, clock: Clock, slots: seq<Option<Value>>): Object
    requires Distinct(fields) && |slots| == |fields|
  {
    assert forall i, j | 0 <= i < j < |fields| :: fields[i].key != fields[j].key;
    map i | 0 <= i < |fields| && slots[i].Some? :: fields[i].key := EncodeValue(clock, slots[i].value)
  }

  function Encode(fields: seq<Field>, clock: Clock, v: Payload): Object
    requires Distinct(fields) && WellTyped(fields, v)
  {
    v.extra + Base(fields, clock, v.slots)
  }

  /** The order Go's JSON package writes the members of a map in: that of the bytes of their keys. */
  predicate Before(a: string, b: string) {
    if b == "" then false
    else if a == "" then true
    else a[0] < b[0] || (a[0] == b[0] && Before(a[1..], b[1..]))
  }

  predicate Sorted(keys: seq<string>) {
    forall i, j | 0 <= i < j < |keys| :: Before(keys[i], keys[j])
  }

  /** What a record is written as. Without extras the members come in the order of the struct; with extras
      they are sorted. */
  ghost predicate IsEncoding(fields: seq<Field>, clock: Clock, v: Payload, wire: Wire)
    requires Distinct(fields) && WellTyped(fields, v)
  {
    Valid(wire) && wire.members == Encode(fields, clock, v) && (v.extra != map[] ==> Sorted(wire.order))
  }

  lemma {:induction false} BeforeIsTotal(a: string, b: string)
    requires a != b && !Before(a, b)
    ensures Before(b, a)
  {
    if a == "" || b == "" {
    } else {
      assert a == [a[0]] + a[1..] && b == [b[0]] + b[1..];
      if a[0] == b[0] {
        BeforeIsTotal(a[1..], b[1..]);
      }
    }
  }

  lemma {:induction false} BeforeIsStrict(a: string, b: string)
    requires Before(a, b)
    ensures !Before(b, a) && a != b
  {
    if a == "" || b == "" {
    } else if a[0] == b[0] {
      BeforeIsStrict(a[1..], b[1..]);
    }
  }

  lemma {:induction false} BeforeIsTransitive(a: string, b: string, c: string)
    requires Before(a, b) && Before(b, c)
    ensures Before(a, c)
  {
    if a == "" || b == "" || c == "" {
    } else if a[0] == b[0] == c[0] {
      BeforeIsTransitive(a[1..], b[1..], c[1..]);
    }
  }

  function Insert(keys: seq<string>, key: string): (r: seq<string>)
    ensures forall k :: k in r <==> k in keys || k == key
  {
    if keys == [] || Before(key, keys[0]) then [key] + keys else [keys[0]] + Insert(keys[1..], key)
  }

  lemma {:induction false} InsertSorts(keys: seq<string>, key: string)
    requires Sorted(keys) && key !in keys
    ensures Sorted(Insert(keys, key))
  {
    if keys == [] {
    } else if Before(key, keys[0]) {
      forall j | 0 <= j < |keys| ensures Before(key, keys[j]) {
        if j > 0 {
          BeforeIsTransitive(key, keys[0], keys[j]);
        }
      }
    } else {
      InsertSorts(keys[1..], key);
      BeforeIsTotal(key, keys[0]);
      var tail := Insert(keys[1..], key);
      forall j | 0 <= j < |tail| ensures Before(keys[0], tail[j]) {
        assert tail[j] in tail;
      }
    }
  }

  lemma SortedNoDuplicates(keys: seq<string>)
    requires Sorted(keys)
    ensures NoDuplicates(keys)
  {
    forall i, j | 0 <= i < j < |keys| ensures keys[i] != keys[j] {
      BeforeIsStrict(keys[i], keys[j]);
    }
  }

  method SortKeys(keys: set<string>) returns (order: seq<string>)
    ensures Lists(order, keys) && Sorted(order)
  {
    order := [];
    var todo := keys;
    while todo != {}
      invariant todo <= keys && Sorted(order)
      invariant forall k :: k in order <==> k in keys - todo
    {
      var key :| key in todo;
      InsertSorts(order, key);
      order := Insert(order, key);
      todo := todo - {key};
    }
    SortedNoDuplicates(order);
  }

  /** The keys of the emitted fields, in the order of the table. */
  method FieldOrder(fields: seq<Field>, slots: seq<Option<Value>>, ghost clock: Clock) returns (order: seq<string>)
    requires Distinct(fields) && |slots| == |fields|
    ensures Lists(order, Base(fields, clock, slots).Keys)
  {
    order := [];
    for i := 0 to |fields|
      invariant NoDuplicates(order)
      invariant forall k :: k in order <==> exists j | 0 <= j < i :: slots[j].Some? && fields[j].key == k
    {
      if slots[i].Some? {
        assert forall j | 0 <= j < i :: Fold(fields[j].key) != Fold(fields[i].key);
        AppendNoDuplicates(order, fields[i].key);
        order := order + [fields[i].key];
      }
    }
  }

  /** Emitted pinned fields win over extras of the same key. */
  method MarshalWithExtras(base: Object, extras: Object) returns (merged: Object)
    ensures merged == extras + base
  {
    if |extras| == 0 {
      return base;
    }
    merged := base;
    var todo := extras.Keys;
    while todo != {}
      invariant todo <= extras.Keys
      invariant merged.Keys == base.Keys + (extras.Keys - todo)
      invariant forall k <- merged :: merged[k] == if k in base then base[k] else extras[k]
    {
      var key :| key in todo;
      if key !in merged {
        merged := merged[key := extras[key]];
      }
      todo := todo - {key};
    }
  }

  // ---- decoding ------------------------------------------------------------------------------

  function Zero(field: Field): Option<Value> {
    if field.optional then None
    else match field.kind
      case Words => Some(TextValue(""))
      case Integer => Some(IntValue(0))
      case Instant => Some(TimeValue(0))
  }

  /** The member is read into the field. */
  predicate Hits(fields: seq<Field>, i: nat, key: string)
    requires i < |fields|
  {
    key == fields[i].key || (key !in Known(fields) && Fold(key) == Fold(fields[i].key))
  }

  predicate Accepts(field: Field, clock: Clock, json: Json) {
    match (field.kind, json)
    case (Instant, JsonNull) => field.optional
    case (_, JsonNull) => true
    case (Words, JsonString(_)) => true
    case (Integer, JsonInt(number)) => InInt64(number)
    case (Instant, JsonString(text)) => clock.parse(text).Some?
    case _ => false
  }

  /** A JSON null leaves a field that cannot be empty as it is. */
  predicate NoOp(field: Field, json: Json) {
    json.JsonNull? && !field.optional
  }

  /** What an accepted value with an effect makes of the field, whatever it held. */
  function ValueOf(field: Field, clock: Clock, json: Json): Option<Value>
    requires Accepts(field, clock, json)
  {
    match (field.kind, json)
    case (_, JsonNull) => None
    case (Words, JsonString(text)) => Some(TextValue(text))
    case (Integer, JsonInt(number)) => Some(IntValue(number))
    case (Instant, JsonString(text)) => Some(TimeValue(clock.parse(text).value))
  }

  /** The field after the members listed by `keys`, in that order; None when one of them is not acceptable. */
  function ReadField(fields: seq<Field>, i: nat, clock: Clock, members: Object, keys: seq<string>)
    : Option<Option<Value>>
    requires i < |fields| && forall key <- keys :: key in members
  {
    if keys == [] then Some(Zero(fields[i]))
    else
      var front, last := keys[..|keys| - 1], keys[|keys| - 1];
      var before := ReadField(fields, i, clock, members, front);
      if before.None? || !Hits(fields, i, last) then before
      else if !Accepts(fields[i], clock, members[last]) then None
      else if NoOp(fields[i], members[last]) then before
      else Some(ValueOf(fields[i], clock, members[last]))
  }

  function DecodeField(fields: seq<Field>, i: nat, clock: Clock, wire: Wire): Option<Option<Value>>
    requires i < |fields| && forall key <- wire.order :: key in wire.members
  {
    ReadField(fields, i, clock, wire.members, wire.order)
  }

  predicate Readable(fields: seq<Field>, clock: Clock, wire: Wire)
    requires forall key <- wire.order :: key in wire.members
  {
    forall i | 0 <= i < |fields| :: DecodeField(fields, i, clock, wire).Some?
  }

  function Decode(fields: seq<Field>, clock: Clock, wire: Wire): Option<Payload>
    requires forall key <- wire.order :: key in wire.members
  {
    if Readable(fields, clock, wire)
    then Some(Payload(seq(|fields|, i requires 0 <= i < |fields| => DecodeField(fields, i, clock, wire).value),
                      wire.members - Known(fields)))
    else None
  }

  method UnmarshalWithExtras(all: Object, known: set<string>) returns (extras: Object)
    ensures extras == all - known
  {
    extras := map[];
    var todo := all.Keys;
    while todo != {}
      invariant todo <= all.Keys
      invariant extras.Keys == all.Keys - todo - known
      invariant forall k <- extras :: extras[k] == all[k]
    {
      var key :| key in todo;
      if key !in known {
        extras := extras[key := all[key]];
      }
      todo := todo - {key};
    }
  }

  /** A received record. A failed read leaves it as it was. */
  class Record {
    var value: Payload

    constructor (value: Payload)
      ensures this.value == value
    {
      this.value := value;
    }

    method MarshalJson(fields: seq<Field>, clock: Clock) returns (wire: Wire)
      requires Distinct(fields) && WellTyped(fields, value)
      ensures IsEncoding(fields, clock, value, wire)
    {
      var members := MarshalWithExtras(Base(fields, clock, value.slots), value.extra);
      var order;
      if |value.extra| == 0 {
        order := FieldOrder(fields, value.slots, clock);
      } else {
        order := SortKeys(members.Keys);
      }
      wire := Wire(members, order);
    }

    method UnmarshalJson(fields: seq<Field>, clock: Clock, wire: Wire) returns (ok: bool)
      requires Valid(wire)
      modifies this
      ensures ok <==> Decode(fields, clock, wire).Some?
      ensures value == if ok then Decode(fields, clock, wire).value else old(value)
    {
      var slots := [];
      for i := 0 to |fields|
        invariant |slots| == i
        invariant forall j | 0 <= j < i :: DecodeField(fields, j, clock, wire) == Some(slots[j])
      {
        var slot := DecodeField(fields, i, clock, wire);
        if slot.None? {
          return false;
        }
        slots := slots + [slot.value];
      }
      var extra := UnmarshalWithExtras(wire.members, Known(fields));
      value := Payload(slots, extra);
      return true;
    }
  }
}
