/** Column type strings, and splitting the parameters of a Map type. */
module TypeNames {
  import opened Wire

  /** A column type: a name, alone or with parameters. */
  datatype Type = Plain(name: string) | With(name: string, args: seq<Type>)

  predicate Space(c: char) {
    c == ' ' || '\t' <= c <= '\r'
  }

  /** Names have no parentheses or commas and do not begin or end with a space. */
  predicate NameOk(s: string) {
    && s != [] && !Space(s[0]) && !Space(s[|s| - 1])
    && forall i :: 0 <= i < |s| ==> s[i] != '(' && s[i] != ')' && s[i] != ','
  }

  predicate TypeOk(t: Type) {
    NameOk(t.name) && (t.With? ==> t.args != [] && forall i :: 0 <= i < |t.args| ==> TypeOk(t.args[i]))
  }

  /** The printed type; a parameter is followed by a comma and any number of blanks. */
  function Print(t: Type, blanks: nat): string {
    match t
    case Plain(n) => n
    case With(n, args) => n + "(" + PrintArgs(args, blanks) + ")"
  }

  function Blanks(n: nat): string {
    seq(n, _ => ' ')
  }

  function PrintArgs(args: seq<Type>, blanks: nat): string {
    if args == [] then ""
    else if |args| == 1 then Print(args[0], blanks)
    else Print(args[0], blanks) + ("," + (Blanks(blanks) + PrintArgs(args[1..], blanks)))
  }

  // ---------- splitting ----------

  function Deeper(c: char, depth: int): int {
    if c == '(' then depth + 1 else if c == ')' then depth - 1 else depth
  }

  /** Where the first comma outside parentheses stands, or the length of s if there is none. */
  function Comma(s: string, depth: int): (k: nat)
    ensures k <= |s| && (k < |s| ==> s[k] == ',')
  {
    if s == [] then 0
    else if s[0] == ',' && depth == 0 then 0
    else 1 + Comma(s[1..], Deeper(s[0], depth))
  }

  /** How many parentheses are open behind s. */
  function Depth(s: string): int {
    if s == [] then 0
    else Depth(s[..|s| - 1]) + match s[|s| - 1] case '(' => 1 case ')' => -1 case _ => 0
  }

  /** Comma finds the first comma outside parentheses, on any string. */
  lemma CommaFirst(s: string)
    ensures var k := Comma(s, 0);
            && (k < |s| ==> s[k] == ',' && Depth(s[..k]) == 0)
            && forall j :: 0 <= j < k && s[j] == ',' ==> Depth(s[..j]) != 0
  {
    CommaFrom(s, 0);
    assert s[0..] == s;
  }

  lemma {:induction false} CommaFrom(s: string, i: nat)
    requires i <= |s|
    ensures var k := i + Comma(s[i..], Depth(s[..i]));
            && k <= |s| && (k < |s| ==> s[k] == ',' && Depth(s[..k]) == 0)
            && forall j :: i <= j < k && s[j] == ',' ==> Depth(s[..j]) != 0
    decreases |s| - i
  {
    if i == |s| || (s[i] == ',' && Depth(s[..i]) == 0) {
    } else {
      assert s[i..][1..] == s[i + 1..];
      DepthStep(s, i);
      CommaFrom(s, i + 1);
    }
  }

  lemma DepthStep(s: string, i: nat)
    requires i < |s|
    ensures Depth(s[..i + 1]) == Deeper(s[i], Depth(s[..i]))
  {
    assert s[..i + 1][..i] == s[..i];
  }

  /** splitAtDepth0 with the separator ','. */
  method SplitAtDepth0(s: string) returns (left: string, right: string)
    ensures var k := Comma(s, 0);
            if k < |s| then left == s[..k] && right == s[k + 1..] else left == s && right == ""
  {
    var depth := 0;
    for i := 0 to |s|
      invariant Comma(s, 0) == i + Comma(s[i..], depth)
    {
      assert s[i..][1..] == s[i + 1..];
      match s[i] {
        case '(' => depth := depth + 1;
        case ')' => depth := depth - 1;
        case ',' =>
          if depth == 0 { return s[..i], s[i + 1..]; }
        case _ =>
      }
    }
    return s, "";
  }

  lemma {:induction false} SkipPlain(s: string, rest: string, depth: int)
    requires forall i :: 0 <= i < |s| ==> s[i] != '(' && s[i] != ')' && s[i] != ','
    ensures Comma(s + rest, depth) == |s| + Comma(rest, depth)
  {
    if s == [] {
      assert s + rest == rest;
    } else {
      assert (s + rest)[1..] == s[1..] + rest;
      SkipPlain(s[1..], rest, depth);
    }
  }

  lemma SkipOne(c: char, rest: string, depth: int)
    requires c == ',' ==> depth != 0
    ensures Comma([c] + rest, depth) == 1 + Comma(rest, Deeper(c, depth))
  {
    assert ([c] + rest)[1..] == rest;
  }

  lemma SkipGap(gap: string, rest: string, depth: int)
    requires depth != 0 && forall i :: 0 <= i < |gap| ==> gap[i] == ' '
    ensures Comma("," + (gap + rest), depth) == 1 + |gap| + Comma(rest, depth)
  {
    SkipOne(',', gap + rest, depth);
    SkipPlain(gap, rest, depth);
  }

  /** A printed type is balanced and has no comma outside its own parentheses. */
  lemma {:induction false} SkipType(t: Type, blanks: nat, rest: string, depth: nat)
    requires TypeOk(t)
    ensures Comma(Print(t, blanks) + rest, depth) == |Print(t, blanks)| + Comma(rest, depth)
    decreases t
  {
    match t
    case Plain(n) => SkipPlain(n, rest, depth);
    case With(n, args) =>
      var inner, tail := PrintArgs(args, blanks), ")" + rest;
      assert Print(t, blanks) + rest == n + ("(" + (inner + tail));
      SkipPlain(n, "(" + (inner + tail), depth);
      SkipOne('(', inner + tail, depth);
      SkipArgs(args, blanks, tail, depth + 1);
      SkipOne(')', rest, depth + 1);
  }

  lemma {:induction false} SkipArgs(args: seq<Type>, blanks: nat, rest: string, depth: nat)
    requires depth > 0 && forall i :: 0 <= i < |args| ==> TypeOk(args[i])
    ensures Comma(PrintArgs(args, blanks) + rest, depth) == |PrintArgs(args, blanks)| + Comma(rest, depth)
    decreases args
  {
    if args == [] {
      assert "" + rest == rest;
    } else if |args| == 1 {
      SkipType(args[0], blanks, rest, depth);
    } else {
      var first, gap, more := Print(args[0], blanks), Blanks(blanks), PrintArgs(args[1..], blanks);
      assert PrintArgs(args, blanks) + rest == first + ("," + (gap + (more + rest)));
      SkipType(args[0], blanks, "," + (gap + (more + rest)), depth);
      SkipGap(gap, more + rest, depth);
      SkipArgs(args[1..], blanks, rest, depth);
    }
  }

  // ---------- trimming ----------

  function TrimLeft(s: string): string {
    if s != [] && Space(s[0]) then TrimLeft(s[1..]) else s
  }

  function TrimRight(s: string): string {
    if s != [] && Space(s[|s| - 1]) then TrimRight(s[..|s| - 1]) else s
  }

  function TrimSpace(s: string): string {
    TrimRight(TrimLeft(s))
  }

  const SPACES := {' ', '\t', '\n', '\U{000b}', '\U{000c}', '\r'}

  predicate AllSpace(s: string) {
    forall i :: 0 <= i < |s| ==> s[i] in SPACES
  }

  /** Trimming takes spaces off both ends and nothing else, until neither end is one. */
  lemma TrimExact(s: string) returns (a: string, b: string)
    ensures s == a + TrimSpace(s) + b && AllSpace(a) && AllSpace(b)
    ensures var m := TrimSpace(s); m != "" ==> m[0] !in SPACES && m[|m| - 1] !in SPACES
  {
    var left := TrimLeft(s);
    a := TrimmedLeft(s);
    b := TrimmedRight(left);
    Regroup(a, TrimRight(left), b);
  }

  lemma Regroup(a: string, b: string, c: string)
    ensures a + (b + c) == a + b + c
  {
  }

  lemma {:induction false} TrimmedLeft(s: string) returns (a: string)
    ensures s == a + TrimLeft(s) && AllSpace(a)
    ensures TrimLeft(s) != "" ==> TrimLeft(s)[0] !in SPACES
  {
    if s == [] || !Space(s[0]) {
      a := "";
    } else {
      var more := TrimmedLeft(s[1..]);
      a := [s[0]] + more;
      assert s == [s[0]] + s[1..];
    }
  }

  lemma {:induction false} TrimmedRight(s: string) returns (b: string)
    ensures s == TrimRight(s) + b && AllSpace(b)
    ensures TrimRight(s) != "" ==> TrimRight(s)[0] == s[0] && TrimRight(s)[|TrimRight(s)| - 1] !in SPACES
  {
    if s == [] || !Space(s[|s| - 1]) {
      b := "";
    } else {
      var n := |s| - 1;
      var more := TrimmedRight(s[..n]);
      b := more + [s[n]];
      assert s == s[..n] + [s[n]];
    }
  }

  lemma {:induction false} TrimBlanks(n: nat, s: string)
    requires s != [] && !Space(s[0]) && !Space(s[|s| - 1])
    ensures TrimSpace(Blanks(n) + s) == s
  {
    if n == 0 {
      assert Blanks(0) + s == s;
    } else {
      assert (Blanks(n) + s)[1..] == Blanks(n - 1) + s;
      TrimBlanks(n - 1, s);
    }
  }

  lemma PrintEnds(t: Type, blanks: nat)
    requires TypeOk(t)
    ensures var s := Print(t, blanks); s != [] && !Space(s[0]) && !Space(s[|s| - 1])
  {
  }

  // ---------- Map types ----------

  /** ColumnType.Elem: what stands between the first '(' and the last ')'. */
  function Elem(s: string): string {
    var open, close := FirstOpen(s), LastClose(s);
    if 0 < open < |s| && 0 < close && open < close then s[open + 1..close] else ""
  }

  function FirstOpen(s: string): (k: nat)
    ensures k <= |s|
  {
    if s == [] || s[0] == '(' then 0 else 1 + FirstOpen(s[1..])
  }

  function LastClose(s: string): (k: int)
    ensures -1 <= k < |s|
  {
    if s == [] then -1 else if s[|s| - 1] == ')' then |s| - 1 else LastClose(s[..|s| - 1])
  }

  lemma {:induction false} FirstOpenAt(n: string, rest: string)
    requires forall i :: 0 <= i < |n| ==> n[i] != '('
    ensures FirstOpen(n + "(" + rest) == |n|
  {
    if n == [] {
    } else {
      assert (n + "(" + rest)[1..] == n[1..] + "(" + rest;
      FirstOpenAt(n[1..], rest);
    }
  }

  /** parseMapTypes; the method below computes it. */
  function MapTypes(t: string): Outcome<(string, string)> {
    var inner := Elem(t);
    if inner == "" then Failed(Malformed)
    else
      var k := Comma(inner, 0);
      var key := TrimSpace(inner[..k]);
      var val := TrimSpace(if k < |inner| then inner[k + 1..] else "");
      if key == "" || val == "" then Failed(Malformed) else Done((key, val))
  }

  /** Exactly when both halves hold something other than spaces the parameters are a key and a value type. */
  lemma MapTypesExact(t: string)
    ensures var inner := Elem(t);
            var k := Comma(inner, 0);
            && (MapTypes(t).Done? <==> k < |inner| && !AllSpace(inner[..k]) && !AllSpace(inner[k + 1..]))
            && (MapTypes(t).Done? ==> MapTypes(t).value == (TrimSpace(inner[..k]), TrimSpace(inner[k + 1..])))
  {
    var inner := Elem(t);
    var k := Comma(inner, 0);
    TrimEmpty(inner[..k]);
    TrimEmpty(if k < |inner| then inner[k + 1..] else "");
  }

  lemma TrimEmpty(s: string)
    ensures TrimSpace(s) == "" <==> AllSpace(s)
  {
    var m := TrimSpace(s);
    var a, b := TrimExact(s);
    if m != "" { assert s[|a|] == m[0]; }
  }

  method ParseMapTypes(t: string) returns (r: Outcome<(string, string)>)
    ensures r == MapTypes(t)
  {
    var inner := Elem(t);
    if inner == "" { return Failed(Malformed); }
    var keyStr, valStr := SplitAtDepth0(inner);
    assert inner[..|inner|] == inner;
    var key, val := TrimSpace(keyStr), TrimSpace(valStr);
    if key == "" || val == "" { return Failed(Malformed); }
    return Done((key, val));
  }

  lemma PrintPair(k: Type, v: Type, blanks: nat)
    ensures PrintArgs([k, v], blanks) == Print(k, blanks) + ("," + (Blanks(blanks) + Print(v, blanks)))
  {
    assert [k, v][1..] == [v];
    assert PrintArgs([v], blanks) == Print(v, blanks);
  }

  lemma ElemOf(name: string, inner: string)
    requires NameOk(name)
    ensures Elem(name + "(" + inner + ")") == inner
  {
    var s := name + "(" + inner + ")";
    assert s == name + "(" + (inner + ")");
    FirstOpenAt(name, inner + ")");
    assert s[|name| + 1..|s| - 1] == inner;
  }

  lemma SplitPair(k: Type, v: Type, blanks: nat)
    requires TypeOk(k)
    ensures var ks, inner := Print(k, blanks), PrintArgs([k, v], blanks);
            && Comma(inner, 0) == |ks| < |inner|
            && inner[..|ks|] == ks && inner[|ks| + 1..] == Blanks(blanks) + Print(v, blanks)
  {
    PrintPair(k, v, blanks);
    SkipType(k, blanks, "," + (Blanks(blanks) + Print(v, blanks)), 0);
  }

  lemma TrimType(t: Type, blanks: nat, gap: nat)
    requires TypeOk(t)
    ensures TrimSpace(Blanks(gap) + Print(t, blanks)) == TrimSpace(Print(t, blanks)) == Print(t, blanks)
    ensures Print(t, blanks) != ""
  {
    PrintEnds(t, blanks);
    TrimBlanks(gap, Print(t, blanks));
    TrimBlanks(0, Print(t, blanks));
    assert Blanks(0) + Print(t, blanks) == Print(t, blanks);
  }

  lemma Conclude(t: string, inner: string, left: string, right: string, key: string, val: string)
    requires Elem(t) == inner && Comma(inner, 0) == |left| < |inner|
    requires inner[..|left|] == left && inner[|left| + 1..] == right
    requires TrimSpace(left) == key != "" && TrimSpace(right) == val != ""
    ensures MapTypes(t) == Done((key, val))
  {
  }

  /** A Map over plainly named types, as the server spells it. */
  lemma MapOfNames(k: string, v: string)
    requires NameOk(k) && NameOk(v)
    ensures MapTypes("Map(" + k + ", " + v + ")") == Done((k, v))
  {
    MapTypeSplits("Map", Plain(k), Plain(v), 1);
    PrintMap(k, v);
  }

  lemma PrintMap(k: string, v: string)
    ensures Print(With("Map", [Plain(k), Plain(v)]), 1) == "Map(" + k + ", " + v + ")"
  {
    PrintPair(Plain(k), Plain(v), 1);
    assert Blanks(1) == " ";
    assert "Map" + "(" + (k + ("," + (" " + v))) + ")" == "Map(" + k + ", " + v + ")";
  }

  /** The type string of a Map column splits back into the type strings of its keys and values. */
  lemma MapTypeSplits(name: string, k: Type, v: Type, blanks: nat)
    requires NameOk(name) && TypeOk(k) && TypeOk(v)
    ensures MapTypes(Print(With(name, [k, v]), blanks)) == Done((Print(k, blanks), Print(v, blanks)))
  {
    var t, inner := Print(With(name, [k, v]), blanks), PrintArgs([k, v], blanks);
    var ks, vs := Print(k, blanks), Print(v, blanks);
    ElemOf(name, inner);
    SplitPair(k, v, blanks);
    TrimType(k, blanks, 0);
    TrimType(v, blanks, blanks);
    Conclude(t, inner, ks, Blanks(blanks) + vs, ks, vs);
  }
}
