/** Records as string maps: fields are written under their tags and read back by tag or, without one, by name. */
module RecordMap {
  import opened Prelude
  import opened Decimal

  datatype Kind = Str | Bool | Int64 | Unsupported

  /** A struct field. A tag of "" or "-" means that the field has none. */
  datatype Field = Field(name: string, tag: string, kind: Kind, exported: bool)

  datatype Value = S(s: string) | B(b: bool) | I(i: int) | Other(text: string)

  type Schema = seq<Field>

  type Record = seq<Value>

  predicate Tagged(f: Field) { f.exported && f.tag != "" && f.tag != "-" }

  predicate Untagged(f: Field) { f.exported && !Tagged(f) }

  predicate HasKind(v: Value, kind: Kind) {
    match kind
    case Str => v.S?
    case Bool => v.B?
    case Int64 => v.I? && -TWO_63 <= v.i < TWO_63
    case Unsupported => v.Other?
  }

  predicate Typed(schema: Schema, r: Record) {
    |r| == |schema| && forall i :: 0 <= i < |schema| ==> HasKind(r[i], schema[i].kind)
  }

  function Print(v: Value): string {
    match v
    case S(s) => s
    case B(b) => PrintBool(b)
    case I(i) => PrintInt(i)
    case Other(text) => text
  }

  function Parse(kind: Kind, s: string): Option<Value> {
    match kind
    case Str => Some(S(s))
    case Bool => if ParseBool(s).Some? then Some(B(ParseBool(s).value)) else None
    case Int64 => if ParseInt(s).Some? then Some(I(ParseInt(s).value)) else None
    case Unsupported => None
  }

  /** The map written for the first `n` fields. */
  function WriteFirst(schema: Schema, r: Record, n: nat): map<string, string>
    requires n <= |schema| == |r|
  {
    if n == 0 then map[]
    else
      var before := WriteFirst(schema, r, n - 1);
      if Tagged(schema[n - 1]) then before[schema[n - 1].tag := Print(r[n - 1])] else before
  }

  function Write(schema: Schema, r: Record): map<string, string>
    requires |schema| == |r|
  {
    WriteFirst(schema, r, |schema|)
  }

  function Key(f: Field): string { if f.tag != "" && f.tag != "-" then f.tag else f.name }

  /** What reading does to one field: its new value, or `None` for an error. */
  function ReadField(f: Field, data: map<string, string>, current: Value): Option<Value> {
    if !f.exported || Key(f) !in data then Some(current) else Parse(f.kind, data[Key(f)])
  }

  /** Reads the fields from the `i`th on; the first error stops the reading, with the fields before it set. */
  function ReadFrom(schema: Schema, data: map<string, string>, r: Record, i: nat): (Record, bool)
    requires i <= |schema| == |r|
    decreases |schema| - i
  {
    if i == |schema| then (r, true)
    else
      var v := ReadField(schema[i], data, r[i]);
      if v.None? then (r, false) else ReadFrom(schema, data, r[i := v.value], i + 1)
  }

  function Read(schema: Schema, data: map<string, string>, r: Record): (Record, bool)
    requires |schema| == |r|
  {
    ReadFrom(schema, data, r, 0)
  }

  // ---------------------------------------------------------------- reading, field by field

  /** A reading succeeds exactly when every field's does, and then sets each field to its own result. */
  lemma {:induction false} ReadFromIs(schema: Schema, data: map<string, string>, r: Record, i: nat)
    requires i <= |schema| == |r|
    ensures var (t, ok) := ReadFrom(schema, data, r, i);
            && |t| == |r| && t[..i] == r[..i]
            && (ok <==> forall j :: i <= j < |r| ==> ReadField(schema[j], data, r[j]).Some?)
            && (ok ==> forall j :: i <= j < |r| ==> ReadField(schema[j], data, r[j]) == Some(t[j]))
    decreases |schema| - i
  {
    if i < |schema| {
      var v := ReadField(schema[i], data, r[i]);
      if v.Some? {
        var next := r[i := v.value];
        ReadFromIs(schema, data, next, i + 1);
        assert forall j :: i < j < |r| ==> next[j] == r[j];
        var t := ReadFrom(schema, data, r, i).0;
        assert t[i] == t[..i + 1][i] == next[i];
        assert t[..i] == t[..i + 1][..i] == next[..i];
      }
    }
  }

  predicate KeysDistinct(schema: Schema) {
    forall i, j :: 0 <= i < j < |schema| && Tagged(schema[i]) && Tagged(schema[j]) ==> schema[i].tag != schema[j].tag
  }

  lemma {:induction false} WrittenFirst(schema: Schema, r: Record, n: nat, i: nat)
    requires n <= |schema| == |r| && i < n && KeysDistinct(schema) && Tagged(schema[i])
    ensures schema[i].tag in WriteFirst(schema, r, n) && WriteFirst(schema, r, n)[schema[i].tag] == Print(r[i])
  {
    if i < n - 1 {
      WrittenFirst(schema, r, n - 1, i);
    }
  }

  /** Exactly the tags are written. */
  lemma {:induction false} WrittenKeys(schema: Schema, r: Record, n: nat, key: string)
    requires n <= |schema| == |r|
    ensures key in WriteFirst(schema, r, n) <==> exists i :: 0 <= i < n && Tagged(schema[i]) && schema[i].tag == key
  {
    if n > 0 {
      WrittenKeys(schema, r, n - 1, key);
    }
  }

  lemma PrintedParses(kind: Kind, v: Value)
    requires HasKind(v, kind) && !kind.Unsupported?
    ensures Parse(kind, Print(v)) == Some(v)
  {
    if kind.Int64? {
      PrintedIntParses(v.i);
    }
  }

  /** A field is written under its tag; a tag of "-" or "" is none, so the field is not written, and read by its name. A
      field that is not exported is neither written nor read. */
  lemma FieldKeys(name: string, tag: string, kind: Kind, exported: bool, v: Value, data: map<string, string>)
    ensures var f := Field(name, tag, kind, exported);
            var key := if tag == "" || tag == "-" then name else tag;
            && Write([f], [v]) == (if !exported || tag == "" || tag == "-" then map[] else map[tag := Print(v)])
            && ReadField(f, data, v) == if exported && key in data then Parse(kind, data[key]) else Some(v)
  {
    assert WriteFirst([Field(name, tag, kind, exported)], [v], 0) == map[];
  }

  // ---------------------------------------------------------------- round trips

  /** Tagged fields have a kind that can be read. */
  predicate Readable(schema: Schema) { forall f <- schema :: Tagged(f) ==> !f.kind.Unsupported? }

  /** No untagged field bears the name of a tag. */
  predicate NoNameIsTag(schema: Schema) {
    forall i, j :: 0 <= i < |schema| && 0 <= j < |schema| && Untagged(schema[i]) && Tagged(schema[j]) ==>
                     schema[i].name != schema[j].tag
  }

  /** The tagged fields of one record over the others of another. */
  function Overlay(schema: Schema, r: Record, onto: Record): Record
    requires |schema| == |r| == |onto|
  {
    seq(|schema|, i requires 0 <= i < |schema| => if Tagged(schema[i]) then r[i] else onto[i])
  }

  lemma FieldComesBack(schema: Schema, r: Record, onto: Record, i: nat)
    requires KeysDistinct(schema) && Readable(schema) && Typed(schema, r) && Typed(schema, onto)
    requires i < |schema| && Tagged(schema[i])
    ensures ReadField(schema[i], Write(schema, r), onto[i]) == Some(r[i])
  {
    WrittenFirst(schema, r, |schema|, i);
    PrintedParses(schema[i].kind, r[i]);
  }

  lemma FieldIsLeft(schema: Schema, r: Record, onto: Record, i: nat)
    requires NoNameIsTag(schema) && |r| == |schema| == |onto| && i < |schema| && !Tagged(schema[i])
    ensures ReadField(schema[i], Write(schema, r), onto[i]) == Some(onto[i])
  {
    WrittenKeys(schema, r, |schema|, Key(schema[i]));
  }

  /** Reading back a written record restores every tagged field and leaves the others as they were. */
  lemma RoundTrip(schema: Schema, r: Record, onto: Record)
    requires KeysDistinct(schema) && Readable(schema) && NoNameIsTag(schema) && Typed(schema, r) && Typed(schema, onto)
    ensures Read(schema, Write(schema, r), onto) == (Overlay(schema, r, onto), true)
  {
    var data := Write(schema, r);
    forall i | 0 <= i < |schema|
      ensures ReadField(schema[i], data, onto[i]) == Some(Overlay(schema, r, onto)[i])
    {
      if Tagged(schema[i]) {
        FieldComesBack(schema, r, onto, i);
      } else {
        FieldIsLeft(schema, r, onto, i);
      }
    }
    ReadFromIs(schema, data, onto, 0);
    assert Read(schema, data, onto).0 == Overlay(schema, r, onto);
  }

  /** A value of the kind that differs from `v`. */
  function Different(kind: Kind, v: Option<Value>): Value {
    match kind
    case Str => if v == Some(S("")) then S("x") else S("")
    case Bool => if v == Some(B(true)) then B(false) else B(true)
    case Int64 => if v == Some(I(0)) then I(1) else I(0)
    case Unsupported => Other("")
  }

  /** When an untagged field bears the name of a tag, some record onto which is read does not keep it. */
  lemma NameClashOverwrites(schema: Schema, r: Record, i: nat, j: nat) returns (onto: Record)
    requires Typed(schema, r) && i < |schema| && j < |schema|
    requires Untagged(schema[i]) && Tagged(schema[j]) && schema[i].name == schema[j].tag
    ensures Typed(schema, onto) && Read(schema, Write(schema, r), onto) != (Overlay(schema, r, onto), true)
  {
    var data := Write(schema, r);
    WrittenKeys(schema, r, |schema|, schema[j].tag);
    onto := r[i := Different(schema[i].kind, Parse(schema[i].kind, data[schema[j].tag]))];
    assert ReadField(schema[i], data, onto[i]) != Some(onto[i]);
    ReadFromIs(schema, data, onto, 0);
  }

  /** So the round trip holds on every record exactly when no untagged field bears the name of a tag. */
  lemma RoundTripExactly(schema: Schema, r: Record)
    requires KeysDistinct(schema) && Readable(schema) && Typed(schema, r)
    ensures NoNameIsTag(schema) <==>
            forall onto :: Typed(schema, onto) ==>
                             Read(schema, Write(schema, r), onto) == (Overlay(schema, r, onto), true)
  {
    if NoNameIsTag(schema) {
      forall onto | Typed(schema, onto)
        ensures Read(schema, Write(schema, r), onto) == (Overlay(schema, r, onto), true)
      {
        RoundTrip(schema, r, onto);
      }
    } else {
      var i, j :| 0 <= i < |schema| && 0 <= j < |schema| && Untagged(schema[i]) && Tagged(schema[j]) &&
                  schema[i].name == schema[j].tag;
      var onto := NameClashOverwrites(schema, r, i, j);
    }
  }
}
