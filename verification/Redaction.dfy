/** Redaction of secrets before they reach logs or audit storage. */
module Redaction {
  import opened Prelude
  import opened Text

  const REDACTED := "[redacted]"

  /** Substrings that mark a key as sensitive. */
  const SENSITIVE_KEY_MARKERS: seq<string> :=
    ["secret", "password", "passwd", "token", "credential", "authorization", "api_key", "apikey",
     "private_key", "access_key", "cookie", "session"]

  /** Keys that contain a marker but only describe secrets. */
  const SAFE_KEY_EXCEPTIONS: set<string> :=
    {"key_hint", "credential_count", "credential_id", "credentials_encryption_key_configured", "token_type",
     "token_ttl_seconds", "access_token_expires_in", "refresh_token_ttl_days", "password_min_length", "session_count"}

  const TEXT_MARKERS: seq<string> := ["sk-", "xrx_live_", "bearer"]

  // ----- Structured values ---------------------------------------------------------------------

  /** What a set can hold: a set member is hashable. */
  datatype Member = Scalar(text: string) | Nested(items: seq<Member>)

  /** A logged value: dictionaries keep insertion order; atoms are everything that is not a container. */
  datatype Value =
    | Atom(text: string)
    | Set(members: set<Member>)
    | List(items: seq<Value>)
    | Tuple(items: seq<Value>)
    | Dict(entries: seq<(string, Value)>)

  predicate IsSensitiveKey(key: string) {
    var lowered := Lower(Strip(key));
    lowered !in SAFE_KEY_EXCEPTIONS && ContainsAny(lowered, SENSITIVE_KEY_MARKERS)
  }

  /** Tuples come out as lists. Set members are values without keys and stay as they are. */
  function Redact(v: Value): Value {
    match v
    case Atom(_) => v
    case Set(_) => v
    case List(items) => List(RedactItems(items))
    case Tuple(items) => List(RedactItems(items))
    case Dict(entries) => Dict(RedactEntries(entries))
  }

  function RedactItems(items: seq<Value>): (r: seq<Value>)
    ensures |r| == |items|
  {
    if items == [] then [] else [Redact(items[0])] + RedactItems(items[1..])
  }

  function RedactEntry(entry: (string, Value)): (string, Value) {
    (entry.0, if IsSensitiveKey(entry.0) then Atom(REDACTED) else Redact(entry.1))
  }

  function RedactEntries(entries: seq<(string, Value)>): (r: seq<(string, Value)>)
    ensures |r| == |entries|
  {
    if entries == [] then [] else [RedactEntry(entries[0])] + RedactEntries(entries[1..])
  }

  // ----- What redaction hides --------------------------------------------------------------------

  /** Two values that an observer who may not see anything under a sensitive key cannot tell apart. */
  predicate Alike(a: Value, b: Value) {
    match (a, b)
    case (Atom(_), Atom(_)) => a == b
    case (Set(_), Set(_)) => a == b
    case (Dict(xs), Dict(ys)) => EntriesAlike(xs, ys)
    case (List(xs), List(ys)) => ItemsAlike(xs, ys)
    case (List(xs), Tuple(ys)) => ItemsAlike(xs, ys)
    case (Tuple(xs), List(ys)) => ItemsAlike(xs, ys)
    case (Tuple(xs), Tuple(ys)) => ItemsAlike(xs, ys)
    case _ => false
  }

  predicate ItemsAlike(xs: seq<Value>, ys: seq<Value>) {
    if xs == [] || ys == [] then xs == [] && ys == []
    else Alike(xs[0], ys[0]) && ItemsAlike(xs[1..], ys[1..])
  }

  predicate EntryAlike(x: (string, Value), y: (string, Value)) {
    x.0 == y.0 && (IsSensitiveKey(x.0) || Alike(x.1, y.1))
  }

  predicate EntriesAlike(xs: seq<(string, Value)>, ys: seq<(string, Value)>) {
    if xs == [] || ys == [] then xs == [] && ys == []
    else EntryAlike(xs[0], ys[0]) && EntriesAlike(xs[1..], ys[1..])
  }

  /** Redaction hides exactly what lies under sensitive keys: two values redact to the same value if
      and only if they differ nowhere else. */
  lemma {:induction false} RedactHidesExactlySecrets(a: Value, b: Value)
    ensures Redact(a) == Redact(b) <==> Alike(a, b)
  {
    match (a, b)
    case (Dict(xs), Dict(ys)) => EntriesHidden(xs, ys);
    case (List(xs), List(ys)) => ItemsHidden(xs, ys);
    case (List(xs), Tuple(ys)) => ItemsHidden(xs, ys);
    case (Tuple(xs), List(ys)) => ItemsHidden(xs, ys);
    case (Tuple(xs), Tuple(ys)) => ItemsHidden(xs, ys);
    case _ =>
  }

  lemma {:induction false} ItemsHidden(xs: seq<Value>, ys: seq<Value>)
    ensures RedactItems(xs) == RedactItems(ys) <==> ItemsAlike(xs, ys)
  {
    if xs != [] && ys != [] {
      RedactHidesExactlySecrets(xs[0], ys[0]);
      ItemsHidden(xs[1..], ys[1..]);
      var r, t := RedactItems(xs), RedactItems(ys);
      assert r[0] == Redact(xs[0]) && r[1..] == RedactItems(xs[1..]);
      assert t[0] == Redact(ys[0]) && t[1..] == RedactItems(ys[1..]);
    }
  }

  lemma {:induction false} EntryHidden(x: (string, Value), y: (string, Value))
    ensures RedactEntry(x) == RedactEntry(y) <==> EntryAlike(x, y)
  {
    RedactHidesExactlySecrets(x.1, y.1);
  }

  lemma {:induction false} EntriesHidden(xs: seq<(string, Value)>, ys: seq<(string, Value)>)
    ensures RedactEntries(xs) == RedactEntries(ys) <==> EntriesAlike(xs, ys)
  {
    if xs != [] && ys != [] {
      EntryHidden(xs[0], ys[0]);
      EntriesHidden(xs[1..], ys[1..]);
      var r, t := RedactEntries(xs), RedactEntries(ys);
      assert r[0] == RedactEntry(xs[0]) && r[1..] == RedactEntries(xs[1..]);
      assert t[0] == RedactEntry(ys[0]) && t[1..] == RedactEntries(ys[1..]);
    }
  }

  /** A redacted value is unchanged by redaction exactly if no secret and no tuple is left in it. */
  predicate Clean(v: Value) {
    match v
    case Atom(_) => true
    case Set(_) => true
    case List(items) => forall i :: 0 <= i < |items| ==> Clean(items[i])
    case Tuple(_) => false
    case Dict(entries) =>
      forall i :: 0 <= i < |entries| ==>
        if IsSensitiveKey(entries[i].0) then entries[i].1 == Atom(REDACTED) else Clean(entries[i].1)
  }

  /** At every depth of the output, a sensitive key maps to the marker. */
  lemma {:induction false} RedactIsClean(v: Value)
    ensures Clean(Redact(v))
  {
    match v
    case Atom(_) =>
    case Set(_) =>
    case List(items) => ItemsClean(items);
    case Tuple(items) => ItemsClean(items);
    case Dict(entries) => EntriesClean(entries);
  }

  lemma {:induction false} ItemsClean(items: seq<Value>)
    ensures forall i :: 0 <= i < |items| ==> RedactItems(items)[i] == Redact(items[i]) && Clean(Redact(items[i]))
  {
    if items != [] {
      RedactIsClean(items[0]);
      ItemsClean(items[1..]);
    }
  }

  lemma {:induction false} EntryIsClean(entry: (string, Value))
    ensures Clean(Redact(entry.1))
  {
    RedactIsClean(entry.1);
  }

  lemma {:induction false} EntriesClean(entries: seq<(string, Value)>)
    ensures forall i :: 0 <= i < |entries| ==>
              RedactEntries(entries)[i] == RedactEntry(entries[i]) &&
              (!IsSensitiveKey(entries[i].0) ==> Clean(Redact(entries[i].1)))
  {
    if entries != [] {
      EntryIsClean(entries[0]);
      EntriesClean(entries[1..]);
    }
  }

  /** The values redaction leaves alone are exactly the clean ones. */
  lemma {:induction false} FixedPointIffClean(v: Value)
    ensures Redact(v) == v <==> Clean(v)
  {
    match v
    case Atom(_) =>
    case Set(_) =>
    case Tuple(_) =>
    case List(items) =>
      ItemsClean(items);
      forall i | 0 <= i < |items| ensures Redact(items[i]) == items[i] <==> Clean(items[i]) {
        FixedPointIffClean(items[i]);
      }
      assert RedactItems(items) == items <==> forall i :: 0 <= i < |items| ==> RedactItems(items)[i] == items[i];
    case Dict(entries) =>
      EntriesClean(entries);
      forall i | 0 <= i < |entries| ensures Redact(entries[i].1) == entries[i].1 <==> Clean(entries[i].1) {
        FixedPointIffClean(entries[i].1);
      }
      assert RedactEntries(entries) == entries <==>
             forall i :: 0 <= i < |entries| ==> RedactEntries(entries)[i] == entries[i];
  }

  lemma RedactIdempotent(v: Value)
    ensures Redact(Redact(v)) == Redact(v)
  {
    RedactIsClean(v);
    FixedPointIffClean(Redact(v));
  }

  // ----- Values that cannot be redacted ----------------------------------------------------------

  /** A tuple inside a set would come out as a list, which no set can hold: redaction raises an error. */
  ghost predicate Raises(v: Value) {
    match v
    case Atom(_) => false
    case Set(members) => exists m :: m in members && m.Nested?
    case List(items) => ItemsRaise(items)
    case Tuple(items) => ItemsRaise(items)
    case Dict(entries) => EntriesRaise(entries)
  }

  ghost predicate ItemsRaise(items: seq<Value>) {
    items != [] && (Raises(items[0]) || ItemsRaise(items[1..]))
  }

  ghost predicate EntriesRaise(entries: seq<(string, Value)>) {
    entries != [] && (EntryRaises(entries[0]) || EntriesRaise(entries[1..]))
  }

  ghost predicate EntryRaises(entry: (string, Value)) {
    !IsSensitiveKey(entry.0) && Raises(entry.1)
  }

  /** The redacted value, unless there is an error. */
  ghost function Redacted(v: Value): Option<Value> {
    if Raises(v) then None else Some(Redact(v))
  }

  /** Whether there is an error does not depend on secrets either. */
  lemma {:induction false} AlikeRaiseAlike(a: Value, b: Value)
    requires Alike(a, b)
    ensures Raises(a) == Raises(b)
  {
    match (a, b)
    case (Dict(xs), Dict(ys)) => EntriesRaiseAlike(xs, ys);
    case (List(xs), List(ys)) => ItemsRaiseAlike(xs, ys);
    case (List(xs), Tuple(ys)) => ItemsRaiseAlike(xs, ys);
    case (Tuple(xs), List(ys)) => ItemsRaiseAlike(xs, ys);
    case (Tuple(xs), Tuple(ys)) => ItemsRaiseAlike(xs, ys);
    case _ =>
  }

  lemma {:induction false} ItemsRaiseAlike(xs: seq<Value>, ys: seq<Value>)
    requires ItemsAlike(xs, ys)
    ensures ItemsRaise(xs) == ItemsRaise(ys)
  {
    if xs != [] {
      AlikeRaiseAlike(xs[0], ys[0]);
      ItemsRaiseAlike(xs[1..], ys[1..]);
    }
  }

  lemma {:induction false} EntryRaisesAlike(x: (string, Value), y: (string, Value))
    requires EntryAlike(x, y)
    ensures EntryRaises(x) == EntryRaises(y)
  {
    if !IsSensitiveKey(x.0) { AlikeRaiseAlike(x.1, y.1); }
  }

  lemma {:induction false} EntriesRaiseAlike(xs: seq<(string, Value)>, ys: seq<(string, Value)>)
    requires EntriesAlike(xs, ys)
    ensures EntriesRaise(xs) == EntriesRaise(ys)
  {
    if xs != [] {
      EntryRaisesAlike(xs[0], ys[0]);
      EntriesRaiseAlike(xs[1..], ys[1..]);
    }
  }

  /** With errors counted as results: redaction gives the same for two values that differ under sensitive keys
      only, and the same value for no others. */
  lemma RedactionShowsNoSecret(a: Value, b: Value)
    ensures Alike(a, b) ==> Redacted(a) == Redacted(b)
    ensures Redacted(a).Some? && Redacted(a) == Redacted(b) ==> Alike(a, b)
  {
    RedactHidesExactlySecrets(a, b);
    if Alike(a, b) { AlikeRaiseAlike(a, b); }
  }

  // ----- Free-form text ------------------------------------------------------------------------

  /** The words of a text: maximal runs without white space. */
  function Split(s: string): seq<string>
    decreases |s|
  {
    if s == [] then []
    else if IsSpace(s[0]) then Split(s[1..])
    else
      var n := WordLength(s);
      [s[..n]] + Split(s[n..])
  }

  function WordLength(s: string): (n: nat)
    ensures n <= |s| && (forall i :: 0 <= i < n ==> !IsSpace(s[i])) && (n < |s| ==> IsSpace(s[n]))
    ensures s != [] && !IsSpace(s[0]) ==> n > 0
  {
    if s == [] || IsSpace(s[0]) then 0 else 1 + WordLength(s[1..])
  }

  function Join(words: seq<string>): string {
    if words == [] then ""
    else if |words| == 1 then words[0]
    else words[0] + " " + Join(words[1..])
  }

  predicate IsWord(w: string) {
    w != "" && forall i :: 0 <= i < |w| ==> !IsSpace(w[i])
  }

  lemma {:induction false} SplitYieldsWords(s: string)
    ensures forall i :: 0 <= i < |Split(s)| ==> IsWord(Split(s)[i])
    decreases |s|
  {
    if s != [] {
      if IsSpace(s[0]) { SplitYieldsWords(s[1..]); } else { SplitYieldsWords(s[WordLength(s)..]); }
    }
  }

  /** Splitting undoes joining. */
  lemma {:induction false} SplitJoin(words: seq<string>)
    requires forall i :: 0 <= i < |words| ==> IsWord(words[i])
    ensures Split(Join(words)) == words
  {
    if words != [] {
      var w, s := words[0], Join(words);
      assert IsWord(w);
      assert s[..|w|] == w && WordLength(s) == |w| by { WordEnds(s, |w|); }
      if |words| == 1 {
        assert s[|w|..] == "";
      } else {
        assert s[|w|..] == " " + Join(words[1..]) && s[|w|..][1..] == Join(words[1..]);
        SplitJoin(words[1..]);
      }
    }
  }

  lemma {:induction false} WordEnds(s: string, n: nat)
    requires n <= |s| && (forall i :: 0 <= i < n ==> !IsSpace(s[i])) && (n < |s| ==> IsSpace(s[n]))
    ensures WordLength(s) == n
  {
    if n > 0 { WordEnds(s[1..], n - 1); }
  }

  predicate LooksSecret(word: string) {
    ContainsAny(Lower(word), TEXT_MARKERS) && |word| > 12
  }

  function Scrub(word: string): string {
    if LooksSecret(word) then REDACTED else word
  }

  function ScrubAll(words: seq<string>): seq<string> {
    seq(|words|, i requires 0 <= i < |words| => Scrub(words[i]))
  }

  method RedactText(value: string) returns (r: string)
    ensures r == Join(ScrubAll(Split(value)))
  {
    var parts := Split(value);
    var scrubbed: seq<string> := [];
    for i := 0 to |parts|
      invariant scrubbed == ScrubAll(parts[..i])
    {
      if ContainsAny(Lower(parts[i]), TEXT_MARKERS) && |parts[i]| > 12 {
        scrubbed := scrubbed + [REDACTED];
      } else {
        scrubbed := scrubbed + [parts[i]];
      }
    }
    assert parts[..|parts|] == parts;
    r := Join(scrubbed);
  }

  lemma ScrubHides(word: string)
    ensures !LooksSecret(Scrub(word)) && (Scrub(word) == word || (LooksSecret(word) && Scrub(word) == REDACTED))
  {
    assert |REDACTED| == 10;
  }

  /** Word by word, only what looked like a secret was replaced, and nothing looks like one any more. */
  ghost predicate Hides(words: seq<string>, parts: seq<string>) {
    && |words| == |parts|
    && forall i :: 0 <= i < |words| ==>
         (!LooksSecret(words[i]) && (words[i] == parts[i] || (LooksSecret(parts[i]) && words[i] == REDACTED)))
  }

  lemma ScrubAllHides(parts: seq<string>)
    ensures Hides(ScrubAll(parts), parts)
  {
    forall i | 0 <= i < |parts|
      ensures !LooksSecret(Scrub(parts[i]))
      ensures Scrub(parts[i]) == parts[i] || (LooksSecret(parts[i]) && Scrub(parts[i]) == REDACTED)
    {
      ScrubHides(parts[i]);
    }
  }

  /** The words of the scrubbed text are those of the text with the secrets replaced. */
  lemma ScrubbedTextHidesSecrets(value: string)
    ensures Hides(Split(Join(ScrubAll(Split(value)))), Split(value))
  {
    SplitYieldsWords(value);
    SplitJoin(ScrubAll(Split(value)));
    ScrubAllHides(Split(value));
  }

  lemma ScrubIdempotent(words: seq<string>)
    ensures ScrubAll(ScrubAll(words)) == ScrubAll(words)
  {
    assert |REDACTED| == 10;
  }

  lemma RedactTextIdempotent(value: string)
    ensures var once := Join(ScrubAll(Split(value))); Join(ScrubAll(Split(once))) == once
  {
    SplitYieldsWords(value);
    SplitJoin(ScrubAll(Split(value)));
    ScrubIdempotent(Split(value));
  }
}
