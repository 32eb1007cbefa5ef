/** What the event stream takes for granted of the JSON library can be had: a printer and a parser that are faithful. */
module SseCodec {
  import opened Prelude
  import opened Text
  import opened Sse

  // ----- Values as numbers --------------------------------------------------------------------

  function Codes(s: string): (r: seq<nat>)
    ensures |r| == |s| && forall i :: 0 <= i < |s| ==> r[i] == s[i] as nat
  {
    if s == [] then [] else [s[0] as nat] + Codes(s[1..])
  }

  function FlatText(s: string): seq<nat> {
    [|s|] + Codes(s)
  }

  ghost function Pick(m: map<string, Json>): (name: string)
    requires m != map[]
    ensures name in m
  {
    var name :| name in m;
    name
  }

  /** Every part announces its kind and its length, so the end of a value can be told. */
  ghost function Flat(j: Json): seq<nat>
    decreases j
  {
    match j
    case Null => [0]
    case Bool(b) => [1, if b then 1 else 0]
    case Num(n) => if n < 0 then [2, 1, -n] else [2, 0, n]
    case Str(s) => [3] + FlatText(s)
    case Arr(items) => [4, |items|] + FlatFrom(j, 0)
    case Obj(fields) => [5, |fields|] + FlatFields(j, fields)
  }

  ghost function FlatFrom(j: Json, i: nat): seq<nat>
    requires j.Arr? && i <= |j.items|
    decreases j, |j.items| - i
  {
    if i == |j.items| then [] else Flat(j.items[i]) + FlatFrom(j, i + 1)
  }

  ghost function FlatFields(j: Json, m: map<string, Json>): seq<nat>
    requires j.Obj? && forall name :: name in m ==> name in j.fields && j.fields[name] == m[name]
    decreases j, |m|
  {
    if m == map[] then []
    else
      var name := Pick(m);
      assert |m - {name}| < |m| by { Smaller(m, name); }
      FlatText(name) + Flat(j.fields[name]) + FlatFields(j, m - {name})
  }

  lemma Smaller(m: map<string, Json>, name: string)
    requires name in m
    ensures |m - {name}| == |m| - 1
  {
    assert (m - {name}).Keys == m.Keys - {name};
    assert |m| == |m.Keys| && |m - {name}| == |(m - {name}).Keys|;
  }

  lemma TextIsPrefixFree(s: string, t: string, x: seq<nat>, y: seq<nat>)
    requires FlatText(s) + x == FlatText(t) + y
    ensures s == t && x == y
  {
    var a, b := FlatText(s) + x, FlatText(t) + y;
    assert a[0] == |s| && b[0] == |t|;
    forall i | 0 <= i < |s| ensures s[i] == t[i] {
      assert a[i + 1] == s[i] as nat && b[i + 1] == t[i] as nat;
    }
    assert a[|s| + 1..] == x && b[|t| + 1..] == y;
  }

  lemma TailsAgree(head: seq<nat>, s: seq<nat>, x: seq<nat>, t: seq<nat>, y: seq<nat>)
    requires head + s + x == head + t + y
    ensures s + x == t + y
  {
    assert (head + s + x)[|head|..] == s + x;
    assert (head + t + y)[|head|..] == t + y;
  }

  /** No value's numbers begin another's. */
  lemma {:induction false} FlatIsPrefixFree(a: Json, b: Json, x: seq<nat>, y: seq<nat>)
    requires Flat(a) + x == Flat(b) + y
    ensures a == b && x == y
    decreases a
  {
    var u, v := Flat(a) + x, Flat(b) + y;
    assert u[0] == v[0];
    match a {
      case Null => assert u[1..] == x && v[1..] == y;
      case Bool(_) => assert u[1] == v[1] && u[2..] == x && v[2..] == y;
      case Num(_) => assert u[1] == v[1] && u[2] == v[2] && u[3..] == x && v[3..] == y;
      case Str(s) =>
        TailsAgree([3], FlatText(s), x, FlatText(b.s), y);
        TextIsPrefixFree(s, b.s, x, y);
      case Arr(items) =>
        assert u[1] == v[1];
        TailsAgree([4, |items|], FlatFrom(a, 0), x, FlatFrom(b, 0), y);
        FromIsPrefixFree(a, b, 0, x, y);
      case Obj(fields) =>
        assert u[1] == v[1];
        TailsAgree([5, |fields|], FlatFields(a, fields), x, FlatFields(b, b.fields), y);
        FieldsArePrefixFree(a, fields, b, b.fields, x, y);
    }
  }

  lemma {:induction false} FromIsPrefixFree(a: Json, b: Json, i: nat, x: seq<nat>, y: seq<nat>)
    requires a.Arr? && b.Arr? && i <= |a.items| == |b.items| && FlatFrom(a, i) + x == FlatFrom(b, i) + y
    ensures a.items[i..] == b.items[i..] && x == y
    decreases a, |a.items| - i
  {
    if i == |a.items| {
      assert FlatFrom(a, i) + x == x && FlatFrom(b, i) + y == y;
    } else {
      Associates(Flat(a.items[i]), FlatFrom(a, i + 1), x);
      Associates(Flat(b.items[i]), FlatFrom(b, i + 1), y);
      FlatIsPrefixFree(a.items[i], b.items[i], FlatFrom(a, i + 1) + x, FlatFrom(b, i + 1) + y);
      FromIsPrefixFree(a, b, i + 1, x, y);
      assert a.items[i..] == [a.items[i]] + a.items[i + 1..] && b.items[i..] == [b.items[i]] + b.items[i + 1..];
    }
  }

  lemma {:induction false} FieldsArePrefixFree(a: Json, m: map<string, Json>, b: Json, n: map<string, Json>,
                                               x: seq<nat>, y: seq<nat>)
    requires a.Obj? && forall name :: name in m ==> name in a.fields && a.fields[name] == m[name]
    requires b.Obj? && forall name :: name in n ==> name in b.fields && b.fields[name] == n[name]
    requires |m| == |n| && FlatFields(a, m) + x == FlatFields(b, n) + y
    ensures m == n && x == y
    decreases a, |m|
  {
    if m == map[] {
      assert n == map[];
      assert FlatFields(a, m) + x == x && FlatFields(b, n) + y == y;
    } else {
      assert n != map[];
      var k, l := Pick(m), Pick(n);
      Smaller(m, k);
      Smaller(n, l);
      var restA, restB := FlatFields(a, m - {k}) + x, FlatFields(b, n - {l}) + y;
      Regroup(FlatText(k), Flat(a.fields[k]), FlatFields(a, m - {k}), x);
      Regroup(FlatText(l), Flat(b.fields[l]), FlatFields(b, n - {l}), y);
      TextIsPrefixFree(k, l, Flat(a.fields[k]) + restA, Flat(b.fields[l]) + restB);
      FlatIsPrefixFree(a.fields[k], b.fields[l], restA, restB);
      FieldsArePrefixFree(a, m - {k}, b, n - {l}, x, y);
      Rejoined(m, n, k);
    }
  }

  lemma Regroup(s: seq<nat>, t: seq<nat>, u: seq<nat>, x: seq<nat>)
    ensures s + t + u + x == s + (t + (u + x))
  {
  }

  lemma Rejoined(m: map<string, Json>, n: map<string, Json>, k: string)
    requires k in m && k in n && m[k] == n[k] && m - {k} == n - {k}
    ensures m == n
  {
    assert m == (m - {k})[k := m[k]] && n == (n - {k})[k := n[k]];
  }

  // ----- Numbers as text ----------------------------------------------------------------------

  function Unary(n: nat): (s: string)
    ensures |s| == n + 1 && s[n] == '.' && forall i :: 0 <= i < n ==> s[i] == 'i'
  {
    if n == 0 then "." else "i" + Unary(n - 1)
  }

  function Written(ns: seq<nat>): (s: string)
    ensures forall ch :: ch in s ==> ch == '.' || ch == 'i'
    ensures ns != [] ==> s != ""
  {
    if ns == [] then "" else Unary(ns[0]) + Written(ns[1..])
  }

  lemma UnaryIsPrefixFree(m: nat, n: nat, x: string, y: string)
    requires Unary(m) + x == Unary(n) + y
    ensures m == n && x == y
  {
    var a, b := Unary(m) + x, Unary(n) + y;
    assert a[m] == '.' && b[n] == '.';
    assert (forall i :: 0 <= i < m ==> a[i] == 'i') && forall i :: 0 <= i < n ==> b[i] == 'i';
    assert m == n;
    assert a[m + 1..] == x && b[n + 1..] == y;
  }

  lemma {:induction false} WrittenIsInjective(m: seq<nat>, n: seq<nat>)
    requires Written(m) == Written(n)
    ensures m == n
  {
    if m != [] && n != [] {
      UnaryIsPrefixFree(m[0], n[0], Written(m[1..]), Written(n[1..]));
      WrittenIsInjective(m[1..], n[1..]);
    }
  }

  // ----- The codec ----------------------------------------------------------------------------

  ghost function Mark(j: Json): string {
    if Plain(j) then "" else "\U{2028}"
  }

  ghost function Body(j: Json): string {
    Written(Flat(j)) + Mark(j)
  }

  ghost function Dumped(j: Json): string {
    if j.Obj? then "{" + Body(j) + "}" else Body(j)
  }

  ghost function Loaded(s: string): Option<Json> {
    if exists j :: Dumped(j) == s then
      var j :| Dumped(j) == s;
      Some(j)
    else None
  }

  lemma MarkIsUnique(s: string, x: string, t: string, y: string)
    requires x in {"", "\U{2028}"} && y in {"", "\U{2028}"} && s + x == t + y
    requires '\U{2028}' !in s && '\U{2028}' !in t
    ensures s == t
  {
    var a, b := s + x, t + y;
    assert if x != "" then a[|a| - 1] == '\U{2028}' else a == s;
    assert if y != "" then b[|b| - 1] == '\U{2028}' else b == t;
    assert a[..|s|] == s && b[..|t|] == t;
  }

  lemma FirstOfBody(j: Json)
    ensures Body(j) != "" && Body(j)[0] in {'.', 'i'}
    ensures OneLine(Body(j)) <==> Plain(j)
  {
    var s := Written(Flat(j));
    assert Body(j)[0] == s[0];
    assert s[0] in s;
    assert forall k :: 0 <= k < |s| ==> s[k] in s && Body(j)[k] == s[k];
    if !Plain(j) { assert Body(j)[|s|] == '\U{2028}'; }
  }

  lemma DumpedIsInjective(a: Json, b: Json)
    requires Dumped(a) == Dumped(b)
    ensures a == b
  {
    FirstOfBody(a);
    FirstOfBody(b);
    assert a.Obj? ==> Dumped(a)[0] == '{' && Dumped(a)[1..|Dumped(a)| - 1] == Body(a);
    assert b.Obj? ==> Dumped(b)[0] == '{' && Dumped(b)[1..|Dumped(b)| - 1] == Body(b);
    MarkIsUnique(Written(Flat(a)), Mark(a), Written(Flat(b)), Mark(b));
    WrittenIsInjective(Flat(a), Flat(b));
    assert Flat(a) + [] == Flat(b) + [];
    FlatIsPrefixFree(a, b, [], []);
  }

  lemma LoadedUndoesDumped(j: Json)
    ensures Loaded(Dumped(j)) == Some(j)
  {
    var i := Loaded(Dumped(j)).value;
    assert Dumped(i) == Dumped(j);
    DumpedIsInjective(i, j);
  }

  lemma BracedOneLine(s: string)
    ensures OneLine("{" + s + "}") <==> OneLine(s)
  {
    var t := "{" + s + "}";
    assert forall k :: 0 <= k < |s| ==> t[k + 1] == s[k];
    if OneLine(s) {
      forall k | 0 <= k < |t| ensures !IsBreak(t[k]) {
        assert 0 < k <= |s| ==> t[k] == s[k - 1];
      }
    }
  }

  lemma OneLineIffPlain(j: Json)
    ensures OneLine(Dumped(j)) <==> Plain(j)
  {
    FirstOfBody(j);
    BracedOneLine(Body(j));
  }

  /** An object with a separator is cut once, before its last brace. */
  lemma CutLines(j: Json)
    requires j.Obj? && !Plain(j)
    ensures Lines(Dumped(j)) == ["{" + Written(Flat(j)), "}"]
  {
    var line := "{" + Written(Flat(j));
    assert Dumped(j) == line + "\U{2028}" + "}";
    assert Dumped(j)[..|line|] == line && Dumped(j)[|line| + 1..] == "}";
    forall k | 0 <= k < |line| ensures !IsBreak(line[k]) {
      assert k > 0 ==> line[k] in Written(Flat(j));
    }
    LineLengthIs(Dumped(j), |line|);
    LinesOfLine("}");
  }

  lemma CutLoadsNothing(j: Json)
    requires j.Obj? && !Plain(j)
    ensures Loaded(Strip("{" + Written(Flat(j)))).None?
  {
    var line := "{" + Written(Flat(j));
    assert Flat(j) != [];
    assert line[|line| - 1] in Written(Flat(j));
    StripKeeps(line);
    forall i ensures Dumped(i) != line {
      FirstOfBody(i);
      if i.Obj? { assert Dumped(i)[|Dumped(i)| - 1] == '}'; } else { assert Dumped(i)[0] in {'.', 'i'}; }
    }
  }

  /** The assumptions about the JSON library do not contradict each other. */
  lemma FaithfulCodecExists()
    ensures exists c: Codec :: Faithful(c)
  {
    var c := Codec(j => Dumped(j), s => Loaded(s), _ => "");
    forall j ensures c.loads(c.dumps(j)) == Some(j) { LoadedUndoesDumped(j); }
    forall j ensures OneLine(c.dumps(j)) <==> Plain(j) { OneLineIffPlain(j); }
    forall j: Json | j.Obj? && !Plain(j) ensures CutIsMute(c, Lines(c.dumps(j))) {
      CutLines(j);
      CutLoadsNothing(j);
    }
    assert Faithful(c);
  }
}
