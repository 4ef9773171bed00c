/** Nullable and Tuple2, the wrappers around columns that can nest. */
module Wrappers {
  import opened Wire
  import opened Codec
  import opened Columns

  // ---------- Nullable ----------

  datatype NullCols = NullCols(nulls: seq<bool>, values: Cols)

  function PutNulls(nulls: seq<bool>): (s: seq<byte>)
    ensures |s| == |nulls|
  {
    seq(|nulls|, i requires 0 <= i < |nulls| => if nulls[i] then 1 else 0)
  }

  function GetNulls(s: seq<byte>): (nulls: seq<bool>)
    ensures |nulls| == |s|
  {
    seq(|s|, i requires 0 <= i < |s| => s[i] != 0)
  }

  lemma NullsRoundTrip(nulls: seq<bool>)
    ensures GetNulls(PutNulls(nulls)) == nulls
  {
  }

  predicate NullSound(sh: Shape, c: NullCols) {
    Sound(sh, c.values) && |c.nulls| == Len(c.values)
  }

  function NullEncode(sh: Shape, c: NullCols): seq<byte>
    requires HasForm(sh, c.values) && LeavesTyped(sh, c.values)
  {
    PutNulls(c.nulls) + Encode(sh, c.values)
  }

  function NullDecode(sh: Shape, prior: NullCols, rows: nat, s: seq<byte>): (r: Parsed<NullCols>)
    requires HasForm(sh, prior.values)
    ensures r.Ok? ==> HasForm(sh, r.value.values) && |r.rest| <= |s|
  {
    match Take(rows, s)
    case Err(f) => Err(f)
    case Ok(bits, s1) =>
      match Decode(sh, prior.values, rows, s1)
      case Err(f) => Err(f)
      case Ok(c, rest) => Ok(NullCols(GetNulls(bits), c), rest)
  }

  /** A nullable column of any nesting is read back exactly when the receiver's FixedStrings are reset. */
  lemma NullRoundTrip(sh: Shape, prior: NullCols, c: NullCols, tail: seq<byte>)
    requires HasForm(sh, prior.values) && NullSound(sh, c) && Fits(sh, c.values)
    ensures HasForm(sh, c.values) && LeavesTyped(sh, c.values)
    ensures NullDecode(sh, prior, |c.nulls|, NullEncode(sh, c) + tail)
         == Ok(NullCols(c.nulls, Graft(sh, prior.values, c.values)), tail)
    ensures NullDecode(sh, prior, |c.nulls|, NullEncode(sh, c) + tail) == Ok(c, tail) <==> Clean(sh, prior.values)
  {
    SoundTyped(sh, c.values);
    var bits, body := PutNulls(c.nulls), Encode(sh, c.values);
    Assoc(bits, body, tail);
    TakeExact(bits, body + tail);
    NullsRoundTrip(c.nulls);
    DecodeEncode(sh, prior.values, c.values, tail);
    GraftClean(sh, prior.values, c.values);
  }

  /** The zero value Append stores beside a null. */
  function Zero(sh: Shape): (v: Value)
    ensures Shaped(sh, v)
  {
    match sh
    case Leaf(Fixed(_)) => Num(0)
    case Leaf(_) => Str([])
    case Array(_) => List([])
    case Map(_, _) => Entries([])
  }

  class Nullable {
    const values: Column
    var nulls: seq<bool>

    ghost predicate Valid()
      reads this, values.Repr()
    {
      this !in values.Repr() && values.Valid()
    }

    ghost function State(): (c: NullCols)
      requires Valid()
      reads this, values.Repr()
      ensures HasForm(values.Form(), c.values) && LeavesTyped(values.Form(), c.values)
    {
      NullCols(nulls, values.State())
    }

    constructor (values: Column)
      requires values.Valid()
      ensures Valid() && this.values == values && nulls == []
    {
      this.values, nulls := values, [];
    }

    method Append(v: Value, isNull: bool)
      requires Valid() && Shaped(values.Form(), v)
      modifies this, values.Repr()
      ensures Valid() && nulls == old(nulls) + [isNull]
      ensures values.State()
           == Push(values.Form(), old(values.State()), if isNull then Zero(values.Form()) else v)
    {
      if isNull {
        var zero := ZeroOf(values);
        values.Append(zero);
      } else {
        values.Append(v);
      }
      nulls := nulls + [isNull];
    }

    /** The value at i and whether it is null. */
    method Row(i: nat) returns (v: Value, isNull: bool)
      requires Valid() && NullSound(values.Form(), State()) && i < |nulls|
      ensures Valid() && NullSound(values.Form(), State()) && i < |nulls|
      ensures isNull == nulls[i] && v == Rows(values.Form(), values.State())[i]
    {
      v := values.Row(i);
      isNull := nulls[i];
    }

    method DecodeColumn(r: Reader, rows: nat) returns (out: Outcome<()>)
      requires Valid() && r !in values.Repr()
      modifies this, values.Repr(), r
      ensures Valid()
      ensures match NullDecode(values.Form(), old(State()), rows, old(r.rest))
              case Ok(c, rest) => out == Done(()) && State() == c && r.rest == rest
              case Err(f) => out == Failed(f)
    {
      if rows == 0 {
        nulls := [];
        assert r.rest[..0] == [] && r.rest[0..] == r.rest;
        out := values.DecodeColumn(r, 0);
        return;
      }
      ghost var inner := values.State();
      var bits := r.ReadFull(rows);
      if bits.Failed? { return Failed(bits.fault); }
      nulls := GetNulls(bits.value);
      assert values.State() == inner;
      out := values.DecodeColumn(r, rows);
    }

    method EncodeColumn(b: Buffer) returns (out: Outcome<()>)
      requires Valid() && b !in values.Repr()
      modifies b
      ensures out.Done? <==> MulsFit(values.Form(), values.State())
      ensures out.Done? ==> b.buf == old(b.buf) + NullEncode(values.Form(), State())
    {
      ghost var before := b.buf;
      for i := 0 to |nulls|
        invariant b.buf == before + PutNulls(nulls)[..i]
      {
        b.Put(if nulls[i] then [1] else [0]);
      }
      assert PutNulls(nulls)[..|nulls|] == PutNulls(nulls);
      out := values.EncodeColumn(b);
      if out.Done? { Assoc(before, PutNulls(nulls), Encode(values.Form(), values.State())); }
    }
  }

  /** `var zero T`, by the column's kind. */
  method ZeroOf(c: Column) returns (v: Value)
    requires c.Valid()
    ensures v == Zero(c.Form())
  {
    match c
    case FixedCol(_) => v := Num(0);
    case StrCol(_) => v := Str([]);
    case BlobCol(_) => v := Str([]);
    case ArrayCol(_) => v := List([]);
    case MapCol(_) => v := Entries([]);
  }

  // ---------- Tuple2 ----------

  function TupleEncode(sh1: Shape, sh2: Shape, c1: Cols, c2: Cols): seq<byte>
    requires HasForm(sh1, c1) && LeavesTyped(sh1, c1) && HasForm(sh2, c2) && LeavesTyped(sh2, c2)
  {
    Encode(sh1, c1) + Encode(sh2, c2)
  }

  function TupleDecode(sh1: Shape, sh2: Shape, p1: Cols, p2: Cols, rows: int, s: seq<byte>)
    : (r: Parsed<(Cols, Cols)>)
    requires HasForm(sh1, p1) && HasForm(sh2, p2)
  {
    match Decode(sh1, p1, rows, s)
    case Err(f) => Err(f)
    case Ok(c1, s1) =>
      match Decode(sh2, p2, rows, s1)
      case Err(f) => Err(f)
      case Ok(c2, rest) => Ok((c1, c2), rest)
  }

  lemma TupleRoundTrip(sh1: Shape, sh2: Shape, p1: Cols, p2: Cols, c1: Cols, c2: Cols, tail: seq<byte>)
    requires HasForm(sh1, p1) && HasForm(sh2, p2) && Len(c1) == Len(c2)
    requires Sound(sh1, c1) && Fits(sh1, c1) && Sound(sh2, c2) && Fits(sh2, c2)
    ensures HasForm(sh1, c1) && LeavesTyped(sh1, c1) && HasForm(sh2, c2) && LeavesTyped(sh2, c2)
    ensures TupleDecode(sh1, sh2, p1, p2, Len(c1), TupleEncode(sh1, sh2, c1, c2) + tail) == Ok((c1, c2), tail)
            <==> Clean(sh1, p1) && Clean(sh2, p2)
  {
    SoundTyped(sh1, c1);
    SoundTyped(sh2, c2);
    Assoc(Encode(sh1, c1), Encode(sh2, c2), tail);
    DecodeEncode(sh1, p1, c1, Encode(sh2, c2) + tail);
    DecodeEncode(sh2, p2, c2, tail);
    GraftClean(sh1, p1, c1);
    GraftClean(sh2, p2, c2);
  }

  /** Appending to one field leaves the other alone. */
  method AppendBeside(c: Column, ghost other: Column, v: Value)
    requires c.Valid() && other.Valid() && c.Repr() !! other.Repr() && Shaped(c.Form(), v)
    modifies c.Repr()
    ensures c.Valid() && other.Valid()
    ensures c.State() == Push(c.Form(), old(c.State()), v) && other.State() == old(other.State())
  {
    c.Append(v);
  }

  method DecodeBeside(c: Column, ghost other: Column, r: Reader, rows: int) returns (out: Outcome<()>)
    requires c.Valid() && other.Valid() && c.Repr() !! other.Repr() && r !in c.Repr() && r !in other.Repr()
    modifies c.Repr(), r
    ensures c.Valid() && other.Valid() && other.State() == old(other.State())
    ensures match Decode(c.Form(), old(c.State()), rows, old(r.rest))
            case Ok(d, rest) => out == Done(()) && c.State() == d && r.rest == rest
            case Err(f) => out == Failed(f)
  {
    out := c.DecodeColumn(r, rows);
  }

  class Tuple2 {
    const field1: Column
    const field2: Column

    ghost predicate Valid()
      reads field1.Repr(), field2.Repr()
    {
      field1.Repr() !! field2.Repr() && field1.Valid() && field2.Valid()
    }

    constructor (field1: Column, field2: Column)
      requires field1.Repr() !! field2.Repr() && field1.Valid() && field2.Valid()
      ensures Valid() && this.field1 == field1 && this.field2 == field2
    {
      this.field1, this.field2 := field1, field2;
    }

    method Append(v: (Value, Value))
      requires Valid() && Shaped(field1.Form(), v.0) && Shaped(field2.Form(), v.1)
      modifies field1.Repr(), field2.Repr()
      ensures Valid()
      ensures field1.State() == Push(field1.Form(), old(field1.State()), v.0)
      ensures field2.State() == Push(field2.Form(), old(field2.State()), v.1)
    {
      AppendBeside(field1, field2, v.0);
      AppendBeside(field2, field1, v.1);
    }

    method DecodeColumn(r: Reader, rows: int) returns (out: Outcome<()>)
      requires Valid() && r !in field1.Repr() && r !in field2.Repr()
      modifies field1.Repr(), field2.Repr(), r
      ensures Valid()
      ensures match TupleDecode(field1.Form(), field2.Form(),
                                old(field1.State()), old(field2.State()), rows, old(r.rest))
              case Ok(c, rest) =>
                out == Done(()) && field1.State() == c.0 && field2.State() == c.1 && r.rest == rest
              case Err(f) => out == Failed(f)
    {
      out := DecodeBeside(field1, field2, r, rows);
      if out.Failed? { return; }
      out := DecodeBeside(field2, field1, r, rows);
    }

    method EncodeColumn(b: Buffer) returns (out: Outcome<()>)
      requires Valid() && b !in field1.Repr() && b !in field2.Repr()
      modifies b
      ensures out.Done? <==> MulsFit(field1.Form(), field1.State()) && MulsFit(field2.Form(), field2.State())
      ensures out.Done? ==>
                b.buf == old(b.buf) + TupleEncode(field1.Form(), field2.Form(), field1.State(), field2.State())
    {
      ghost var before, first, second := b.buf, field1.State(), field2.State();
      out := field1.EncodeColumn(b);
      if out.Failed? { return; }
      assert field1.State() == first && field2.State() == second;
      out := field2.EncodeColumn(b);
      assert field1.State() == first && field2.State() == second;
      Assoc(before, Encode(field1.Form(), first), Encode(field2.Form(), second));
    }
  }
}
