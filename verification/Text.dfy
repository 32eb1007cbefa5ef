/** Text operations shared by the components. */
module Text {
  import opened Prelude

  /** The white space that stripping and splitting remove. */
  predicate IsSpace(c: char) {
    || '\U{9}' <= c <= '\U{D}' || '\U{1C}' <= c <= ' ' || c == '\U{85}' || c == '\U{A0}' || c == '\U{1680}'
    || '\U{2000}' <= c <= '\U{200A}' || c == '\U{2028}' || c == '\U{2029}' || c == '\U{202F}' || c == '\U{205F}'
    || c == '\U{3000}'
  }

  /** Lower case as far as ASCII goes: besides A to Z, only the Kelvin sign and the dotted capital I become
      text with ASCII letters. Other characters stay non-ASCII, whatever they become. */
  function LowerOf(c: char): string {
    if 'A' <= c <= 'Z' then [(c as int + 32) as char]
    else if c == '\U{212A}' then "k"
    else if c == '\U{130}' then "i\U{307}"
    else [c]
  }

  function Lower(s: string): string {
    if s == [] then [] else LowerOf(s[0]) + Lower(s[1..])
  }

  lemma {:induction false} LowerConcat(a: string, b: string)
    ensures Lower(a + b) == Lower(a) + Lower(b)
  {
    if a == [] {
      assert a + b == b;
    } else {
      LowerConcat(a[1..], b);
      assert (a + b)[0] == a[0] && (a + b)[1..] == a[1..] + b;
      Associates(LowerOf(a[0]), Lower(a[1..]), Lower(b));
    }
  }

  lemma {:induction false} LowerTwice(s: string)
    ensures Lower(Lower(s)) == Lower(s)
  {
    if s != [] {
      LowerTwice(s[1..]);
      LowerConcat(LowerOf(s[0]), Lower(s[1..]));
      LowerOne(s[0]);
    }
  }

  lemma LowerOne(c: char)
    ensures Lower(LowerOf(c)) == LowerOf(c)
  {
    var s := LowerOf(c);
    assert |s| == 1 ==> s[1..] == [] && Lower(s) == LowerOf(s[0]);
    if c == '\U{130}' {
      assert s[1..] == ['\U{307}'] && s[1..][1..] == [];
      assert Lower(s[1..]) == ['\U{307}'];
    }
  }

  function Strip(s: string): string
    decreases |s|
  {
    if s == [] then s
    else if IsSpace(s[0]) then Strip(s[1..])
    else if IsSpace(s[|s| - 1]) then Strip(s[..|s| - 1])
    else s
  }

  predicate Contains(s: string, part: string) {
    exists i :: 0 <= i <= |s| && part <= s[i..]
  }

  predicate ContainsAny(s: string, parts: seq<string>) {
    exists k :: 0 <= k < |parts| && Contains(s, parts[k])
  }
}
