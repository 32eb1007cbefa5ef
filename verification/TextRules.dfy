/** What the text operations do, told by characters and pieces of the text. */
module TextRules {
  import opened Prelude
  import opened Text
  import opened Redaction
  import Slug

  // ----- Characters ---------------------------------------------------------------------------

  const SPACES := "\U{9}\U{A}\U{B}\U{C}\U{D}\U{1C}\U{1D}\U{1E}\U{1F}\U{20}\U{85}\U{A0}\U{1680}\U{2000}\U{2001}\U{2002}"
                  + "\U{2003}\U{2004}\U{2005}\U{2006}\U{2007}\U{2008}\U{2009}\U{200A}"
                  + "\U{2028}\U{2029}\U{202F}\U{205F}\U{3000}"

  lemma SpacesTell(c: char)
    ensures IsSpace(c) <==> c in SPACES
  {
    assert SPACES[0] == '\U{9}';
  }

  const UPPER := "ABCDEFGHIJKLMNOPQRSTUVWXYZ"
  const LOWER := "abcdefghijklmnopqrstuvwxyz"

  /** Capital letters become small ones, and other ASCII characters stay. */
  lemma LowerTells(c: char, k: nat)
    requires k < 26
    ensures LowerOf(UPPER[k]) == [LOWER[k]]
    ensures c < '\U{80}' && c !in UPPER ==> LowerOf(c) == [c]
  {
    if 'A' <= c <= 'Z' { assert c == UPPER[c as int - 'A' as int]; }
  }

  // ----- Stripping ----------------------------------------------------------------------------

  ghost predicate Blank(s: string) {
    forall i :: 0 <= i < |s| ==> IsSpace(s[i])
  }

  /** The part of the text from i to j, with nothing but white space around it, and none at its ends. */
  ghost predicate Stripped(s: string, i: nat, j: nat) {
    && i <= j <= |s| && Blank(s[..i]) && Blank(s[j..])
    && (i < j ==> !IsSpace(s[i]) && !IsSpace(s[j - 1]))
  }

  lemma BlankCons(c: char, s: string)
    requires IsSpace(c) && Blank(s)
    ensures Blank([c] + s)
  {
  }

  lemma BlankSnoc(s: string, c: char)
    requires IsSpace(c) && Blank(s)
    ensures Blank(s + [c])
  {
  }

  lemma SliceOfTail(s: string, i: nat, j: nat)
    requires s != [] && i <= j < |s|
    ensures s[1..][i..j] == s[i + 1..j + 1]
  {
    var a, b := s[1..][i..j], s[i + 1..j + 1];
    forall k | 0 <= k < |a| ensures a[k] == b[k] {
      assert a[k] == s[1..][i + k] && b[k] == s[i + 1 + k];
    }
  }

  lemma StrippedAfterSpace(s: string, i: nat, j: nat)
    requires s != [] && IsSpace(s[0]) && Stripped(s[1..], i, j)
    ensures Stripped(s, i + 1, j + 1) && s[i + 1..j + 1] == s[1..][i..j]
  {
    var t := s[1..];
    assert s[j + 1..] == t[j..];
    BlankCons(s[0], t[..i]);
    assert s[..i + 1] == [s[0]] + t[..i];
    if i < j {
      assert t[i] == s[i + 1];
      assert t[j - 1] == s[j];
    }
    SliceOfTail(s, i, j);
  }

  lemma StrippedBeforeSpace(s: string, i: nat, j: nat)
    requires s != [] && IsSpace(s[|s| - 1]) && Stripped(s[..|s| - 1], i, j)
    ensures Stripped(s, i, j) && s[i..j] == s[..|s| - 1][i..j]
  {
    assert s[..i] == s[..|s| - 1][..i];
    BlankSnoc(s[..|s| - 1][j..], s[|s| - 1]);
    assert s[j..] == s[..|s| - 1][j..] + [s[|s| - 1]];
    assert s[i..j] == s[..|s| - 1][i..j];
  }

  lemma {:induction false} StripTells(s: string) returns (i: nat, j: nat)
    ensures Stripped(s, i, j) && Strip(s) == s[i..j]
    decreases |s|
  {
    if s == [] {
      i, j := 0, 0;
    } else if IsSpace(s[0]) {
      var k, l := StripTells(s[1..]);
      StrippedAfterSpace(s, k, l);
      i, j := k + 1, l + 1;
    } else if IsSpace(s[|s| - 1]) {
      i, j := StripTells(s[..|s| - 1]);
      StrippedBeforeSpace(s, i, j);
    } else {
      i, j := 0, |s|;
    }
  }

  lemma {:induction false} StripBefore(before: string, s: string)
    requires Blank(before)
    ensures Strip(before + s) == Strip(s)
  {
    if before == [] {
      assert before + s == s;
    } else {
      assert (before + s)[1..] == before[1..] + s;
      StripBefore(before[1..], s);
    }
  }

  lemma {:induction false} StripAfter(s: string, after: string)
    requires Blank(after)
    ensures Strip(s + after) == Strip(s)
    decreases |s| + |after|
  {
    if after == [] {
      assert s + after == s;
    } else if s == [] {
      assert s + after == after + "";
      StripBefore(after, "");
    } else if IsSpace(s[0]) {
      assert (s + after)[1..] == s[1..] + after;
      StripAfter(s[1..], after);
    } else {
      assert (s + after)[..|s + after| - 1] == s + after[..|after| - 1];
      StripAfter(s, after[..|after| - 1]);
    }
  }

  // ----- Keys and words that look secret ------------------------------------------------------

  /** A text contains a part exactly if it is that part with something before and after it. */
  lemma ContainsTells(s: string, part: string)
    ensures Contains(s, part) <==> exists i, j :: 0 <= i <= j <= |s| && s[i..j] == part
  {
    if i :| 0 <= i <= |s| && part <= s[i..] { assert s[i..i + |part|] == part; }
    if i, j :| 0 <= i <= j <= |s| && s[i..j] == part { assert part <= s[i..]; }
  }

  predicate HoldsKeyMarker(k: string) {
    || Contains(k, "secret") || Contains(k, "password") || Contains(k, "passwd") || Contains(k, "token")
    || Contains(k, "credential") || Contains(k, "authorization") || Contains(k, "api_key") || Contains(k, "apikey")
    || Contains(k, "private_key") || Contains(k, "access_key") || Contains(k, "cookie") || Contains(k, "session")
  }

  lemma KeyMarkersTell(k: string)
    ensures ContainsAny(k, SENSITIVE_KEY_MARKERS) <==> HoldsKeyMarker(k)
  {
    var ms := SENSITIVE_KEY_MARKERS;
    assert ms[0] == "secret" && ms[1] == "password" && ms[2] == "passwd" && ms[3] == "token";
    assert ms[4] == "credential" && ms[5] == "authorization" && ms[6] == "api_key" && ms[7] == "apikey";
    assert ms[8] == "private_key" && ms[9] == "access_key" && ms[10] == "cookie" && ms[11] == "session";
  }

  /** A key is sensitive if its trimmed, lower-case form holds one of twelve markers and is none of ten exceptions. */
  lemma SensitiveTells(key: string)
    ensures var k := Lower(Strip(key));
            IsSensitiveKey(key) <==>
            && HoldsKeyMarker(k)
            && k != "key_hint" && k != "credential_count" && k != "credential_id"
            && k != "credentials_encryption_key_configured" && k != "token_type" && k != "token_ttl_seconds"
            && k != "access_token_expires_in" && k != "refresh_token_ttl_days" && k != "password_min_length"
            && k != "session_count"
  {
    KeyMarkersTell(Lower(Strip(key)));
  }

  /** White space around a key and the case of its letters do not matter. */
  lemma CaseAndSpaceDoNotMatter(key: string, other: string, before: string, after: string)
    requires Blank(before) && Blank(after) && Lower(Strip(key)) == Lower(Strip(other))
    ensures IsSensitiveKey(before + key + after) == IsSensitiveKey(other)
  {
    StripAfter(before + key, after);
    StripBefore(before, key);
  }

  lemma ContainsOneOfThree(s: string, a: string, b: string, c: string)
    ensures ContainsAny(s, [a, b, c]) <==> Contains(s, a) || Contains(s, b) || Contains(s, c)
  {
    assert [a, b, c][0] == a && [a, b, c][1] == b && [a, b, c][2] == c;
  }

  predicate HoldsTextMarker(w: string) {
    Contains(w, "sk-") || Contains(w, "xrx_live_") || Contains(w, "bearer")
  }

  lemma TextMarkersTell(w: string)
    ensures ContainsAny(w, TEXT_MARKERS) <==> HoldsTextMarker(w)
  {
    ContainsOneOfThree(w, "sk-", "xrx_live_", "bearer");
  }

  /** A word is scrubbed if it is longer than twelve characters and holds one of three markers in any case. */
  lemma ScrubTells(word: string)
    ensures Scrub(word) == if |word| > 12 && HoldsTextMarker(Lower(word)) then "[redacted]" else word
  {
    TextMarkersTell(Lower(word));
  }

  // ----- What cannot be redacted --------------------------------------------------------------

  lemma {:induction false} ItemsRaiseTell(items: seq<Value>)
    ensures ItemsRaise(items) <==> exists i :: 0 <= i < |items| && Raises(items[i])
  {
    if items != [] {
      ItemsRaiseTell(items[1..]);
      if i :| 0 <= i < |items[1..]| && Raises(items[1..][i]) { assert Raises(items[i + 1]); }
      if i :| 0 < i < |items| && Raises(items[i]) { assert Raises(items[1..][i - 1]); }
    }
  }

  ghost predicate ShownAndRaises(entry: (string, Value)) {
    !IsSensitiveKey(entry.0) && Raises(entry.1)
  }

  lemma {:induction false} EntriesRaiseTell(entries: seq<(string, Value)>)
    ensures EntriesRaise(entries) <==> exists i :: 0 <= i < |entries| && ShownAndRaises(entries[i])
  {
    if entries != [] {
      EntriesRaiseTell(entries[1..]);
      if i :| 0 <= i < |entries[1..]| && ShownAndRaises(entries[1..][i]) { assert ShownAndRaises(entries[i + 1]); }
      if i :| 0 < i < |entries| && ShownAndRaises(entries[i]) { assert ShownAndRaises(entries[1..][i - 1]); }
    }
  }

  /** Redaction fails exactly at a set with a tuple among its members, wherever that is shown. */
  lemma RaisesTells(v: Value)
    ensures Redacted(v) == if Raises(v) then None else Some(Redact(v))
    ensures match v
            case Atom(_) => !Raises(v)
            case Set(members) => Raises(v) <==> exists m :: m in members && m.Nested?
            case List(items) => Raises(v) <==> exists i :: 0 <= i < |items| && Raises(items[i])
            case Tuple(items) => Raises(v) <==> exists i :: 0 <= i < |items| && Raises(items[i])
            case Dict(entries) =>
              Raises(v) <==> exists i :: 0 <= i < |entries| && !IsSensitiveKey(entries[i].0) && Raises(entries[i].1)
  {
    match v
    case List(items) => ItemsRaiseTell(items);
    case Tuple(items) => ItemsRaiseTell(items);
    case Dict(entries) =>
      EntriesRaiseTell(entries);
      assert forall i :: 0 <= i < |entries| ==>
        (ShownAndRaises(entries[i]) <==> !IsSensitiveKey(entries[i].0) && Raises(entries[i].1));
    case _ =>
  }

  // ----- Slugs --------------------------------------------------------------------------------

  /** Decimal digits without a leading zero. */
  lemma {:induction false} DecimalTells(n: nat)
    ensures var d := Slug.Decimal(n);
            && d != "" && (forall i :: 0 <= i < |d| ==> '0' <= d[i] <= '9') && (n > 0 ==> d[0] != '0')
  {
    if n >= 10 { DecimalTells(n / 10); }
  }

  /** The slug as it is, then with the suffixes -2, -3 and so on. */
  lemma ProbeTells(base: string, k: nat)
    requires k >= 1
    ensures k == 1 ==> Slug.Probe(base, k) == if base == "" then "provider" else base
    ensures k >= 2 ==> Slug.Probe(base, k) == base + "-" + Slug.Decimal(k) && Slug.Value(Slug.Decimal(k)) == k
    ensures Slug.Probe(base, 2) == base + "-2" && Slug.Probe(base, 3) == base + "-3"
  {
    Slug.ValueOfDecimal(k);
    assert base + "-" + "2" == base + "-2" && base + "-" + "3" == base + "-3";
  }
}
