/** The phone sanitiser: `sanitize_phone_number` (main.py). */
module Phone {
  import opened Wrappers

  /** Python's `\d`, restricted to ASCII digits. */
  predicate IsDigit(c: char) { '0' <= c <= '9' }

  /** The characters the pattern `[^+\d]` does not delete. */
  predicate IsPhoneChar(c: char) { IsDigit(c) || c == '+' }

  /** A sanitised phone: non-empty, only digits and '+', and '+' nowhere but at index 0. */
  predicate IsSanitized(p: string)
  {
    && p != []
    && (forall i :: 0 <= i < |p| ==> IsPhoneChar(p[i]))
    && (forall i :: 0 < i < |p| ==> p[i] != '+')
  }

  /** `re.sub(r"[^+\d]", "", s)`: the digits and '+' of `s`, in their order. */
  function KeepPhoneChars(s: string): (r: string)
    ensures |r| <= |s|
    ensures forall i :: 0 <= i < |r| ==> IsPhoneChar(r[i])
    ensures r == [] <==> forall i :: 0 <= i < |s| ==> !IsPhoneChar(s[i])
  {
    if s == [] then ""
    else (if IsPhoneChar(s[0]) then [s[0]] else "") + KeepPhoneChars(s[1..])
  }

  /** `s.replace("+", "")`. */
  function DropPlus(s: string): (r: string)
    ensures forall i :: 0 <= i < |r| ==> r[i] != '+'
    ensures forall i :: 0 <= i < |r| ==> r[i] in s
  {
    if s == [] then ""
    else (if s[0] == '+' then "" else [s[0]]) + DropPlus(s[1..])
  }

  /**
   * `sanitize_phone_number(raw)`: keep the first surviving character as it is and
   * drop every later '+'. None stands for the IndexError of `new_phone[0]` when
   * no digit and no '+' survives the filter.
   */
  function Sanitize(raw: string): (r: Option<string>)
    ensures r.None? <==> forall i :: 0 <= i < |raw| ==> !IsPhoneChar(raw[i])
    ensures r.Some? ==> IsSanitized(r.value)
  {
    var kept := KeepPhoneChars(raw);
    if kept == [] then None
    else
      var p := [kept[0]] + DropPlus(kept[1..]);
      assert forall i :: 0 < i < |p| ==> p[i] == DropPlus(kept[1..])[i - 1];
      Some(p)
  }

  // ---------------------------------------------------------------------------
  // An independent description of the result: an optional leading '+', then all digits.

  /** The digits of `s`, in order. */
  function Digits(s: string): string
  {
    if s == [] then ""
    else (if IsDigit(s[0]) then [s[0]] else "") + Digits(s[1..])
  }

  /** Whether the first digit-or-'+' character of `s` is a '+'. */
  predicate LeadingPlus(s: string)
  {
    s != [] && (s[0] == '+' || (!IsDigit(s[0]) && LeadingPlus(s[1..])))
  }

  /** What the sanitiser is meant to produce: a '+' if one comes before every digit, then every digit. */
  function Expected(raw: string): string
  {
    (if LeadingPlus(raw) then "+" else "") + Digits(raw)
  }

  lemma {:induction false} DigitsAppend(a: string, b: string)
    ensures Digits(a + b) == Digits(a) + Digits(b)
  {
    if a != [] {
      assert (a + b)[1..] == a[1..] + b;
      DigitsAppend(a[1..], b);
    } else {
      assert a + b == b;
    }
  }

  lemma {:induction false} KeepPhoneCharsDigits(s: string)
    ensures Digits(KeepPhoneChars(s)) == Digits(s)
    ensures KeepPhoneChars(s) != [] ==> (KeepPhoneChars(s)[0] == '+' <==> LeadingPlus(s))
  {
    if s != [] {
      KeepPhoneCharsDigits(s[1..]);
      var head: string := if IsPhoneChar(s[0]) then [s[0]] else "";
      DigitsAppend(head, KeepPhoneChars(s[1..]));
    }
  }

  lemma {:induction false} DropPlusIsDigits(s: string)
    requires forall i :: 0 <= i < |s| ==> IsPhoneChar(s[i])
    ensures DropPlus(s) == Digits(s)
  {
    if s != [] {
      DropPlusIsDigits(s[1..]);
    }
  }

  lemma {:induction false} KeepPhoneCharsAppend(a: string, b: string)
    ensures KeepPhoneChars(a + b) == KeepPhoneChars(a) + KeepPhoneChars(b)
  {
    if a != [] {
      assert (a + b)[1..] == a[1..] + b;
      KeepPhoneCharsAppend(a[1..], b);
    } else {
      assert a + b == b;
    }
  }

  /** The sanitiser keeps exactly the digits of its input, behind a '+' iff a '+' came before the first digit. */
  lemma {:induction false} SanitizeCharacterised(raw: string)
    ensures Sanitize(raw) == if exists i :: 0 <= i < |raw| && IsPhoneChar(raw[i]) then Some(Expected(raw)) else None
  {
    var kept := KeepPhoneChars(raw);
    if kept != [] {
      var i :| 0 <= i < |raw| && IsPhoneChar(raw[i]);
      var head, tail := kept[0], kept[1..];
      KeepPhoneCharsDigits(raw);
      DropPlusIsDigits(tail);
      assert kept == [head] + tail;
      DigitsAppend([head], tail);
      assert [head][1..] == [];
      var p := [head] + Digits(tail);
      assert Sanitize(raw) == Some(p);
      if head == '+' {
        assert Digits([head]) == "";
        assert Digits(raw) == Digits(tail);
      } else {
        assert Digits([head]) == [head];
        assert Digits(raw) == p;
        assert !LeadingPlus(raw);
        assert Expected(raw) == "" + p == p;
      }
    }
  }

  // ---------------------------------------------------------------------------
  // Order: the kept characters appear in the input in the same relative order.

  /** `a` can be obtained from `b` by deleting characters. */
  predicate IsSubsequence(a: string, b: string)
    decreases |b|
  {
    a == [] || (b != [] && if a[0] == b[0] then IsSubsequence(a[1..], b[1..]) else IsSubsequence(a, b[1..]))
  }

  lemma {:induction false} DigitsSubsequence(s: string)
    ensures forall i :: 0 <= i < |Digits(s)| ==> IsDigit(Digits(s)[i])
    ensures IsSubsequence(Digits(s), s)
  {
    if s != [] {
      var rest := Digits(s[1..]);
      DigitsSubsequence(s[1..]);
      if IsDigit(s[0]) {
        assert Digits(s) == [s[0]] + rest;
        assert Digits(s)[1..] == rest;
      } else {
        assert Digits(s) == rest;
        assert rest != [] ==> IsDigit(rest[0]);
      }
    }
  }

  /** A subsequence of `b` stays one when a character it cannot start with is put in front of `b`. */
  lemma SubsequenceSkip(a: string, c: char, b: string)
    requires IsSubsequence(a, b)
    requires a != [] ==> a[0] != c
    ensures IsSubsequence(a, [c] + b)
  {
    assert ([c] + b)[1..] == b;
  }

  /** Putting the same character in front of both keeps a subsequence. */
  lemma SubsequenceCons(c: char, a: string, b: string)
    requires IsSubsequence(a, b)
    ensures IsSubsequence([c] + a, [c] + b)
  {
    assert ([c] + a)[1..] == a && ([c] + b)[1..] == b;
  }

  /** Expected, one character at a time. */
  lemma ExpectedCons(raw: string)
    requires raw != []
    ensures Expected(raw) == if IsPhoneChar(raw[0]) then [raw[0]] + Digits(raw[1..]) else Expected(raw[1..])
  {
    assert Digits(raw) == (if IsDigit(raw[0]) then [raw[0]] else "") + Digits(raw[1..]);
    if !IsPhoneChar(raw[0]) {
      assert LeadingPlus(raw) == LeadingPlus(raw[1..]);
    }
  }

  lemma {:induction false} ExpectedSubsequence(raw: string)
    ensures IsSubsequence(Expected(raw), raw)
  {
    if raw != [] {
      var rest := raw[1..];
      assert raw == [raw[0]] + rest;
      ExpectedCons(raw);
      DigitsSubsequence(rest);
      if IsPhoneChar(raw[0]) {
        SubsequenceCons(raw[0], Digits(rest), rest);
      } else {
        ExpectedSubsequence(rest);
        ExpectedStart(rest);
        SubsequenceSkip(Expected(rest), raw[0], rest);
      }
    }
  }

  /** Expected starts with a digit or '+'. */
  lemma ExpectedStart(raw: string)
    ensures Expected(raw) != [] ==> IsPhoneChar(Expected(raw)[0])
  {
    DigitsSubsequence(raw);
  }

  /** The sanitised phone is a subsequence of the raw input: nothing is reordered or invented. */
  lemma SanitizeKeepsOrder(raw: string)
    ensures Sanitize(raw).Some? ==> IsSubsequence(Sanitize(raw).value, raw)
  {
    SanitizeCharacterised(raw);
    ExpectedSubsequence(raw);
  }

  // ---------------------------------------------------------------------------
  // Fixed points.

  lemma {:induction false} KeepPhoneCharsIdentity(s: string)
    requires forall i :: 0 <= i < |s| ==> IsPhoneChar(s[i])
    ensures KeepPhoneChars(s) == s
  {
    if s != [] {
      KeepPhoneCharsIdentity(s[1..]);
      assert s == [s[0]] + s[1..];
    }
  }

  lemma {:induction false} DropPlusIdentity(s: string)
    requires forall i :: 0 <= i < |s| ==> s[i] != '+'
    ensures DropPlus(s) == s
  {
    if s != [] {
      DropPlusIdentity(s[1..]);
      assert s == [s[0]] + s[1..];
    }
  }

  /** The sanitised phones are exactly the strings the sanitiser leaves as they are. */
  lemma SanitizeFixedPoints(p: string)
    ensures Sanitize(p) == Some(p) <==> IsSanitized(p)
  {
    if IsSanitized(p) {
      KeepPhoneCharsIdentity(p);
      DropPlusIdentity(p[1..]);
      assert p == [p[0]] + p[1..];
    }
  }

  /** Sanitising twice is sanitising once. */
  lemma SanitizeIdempotent(raw: string)
    requires Sanitize(raw).Some?
    ensures Sanitize(Sanitize(raw).value) == Sanitize(raw)
  {
    SanitizeFixedPoints(Sanitize(raw).value);
  }
}
