/**
 * The string helpers of ApiGateway/Extentions/StringExtentions.cs that the
 * id encryption and the gateway rely on.
 *
 * Base64Encode and Base64Decode wrap .NET's UTF-8 and Base64 converters,
 * which are not part of this model: a codec is passed in as a pair of
 * functions, and what the code needs of it is the predicate ValidCodec.
 */
module StringExtentions {
  import opened Wrappers
  import opened NetStrings

  // ---------------------------------------------------------------------------
  // IsValidMobileNumber (lines 13, 23-28)

  /** The nine digits after the country or trunk prefix: [6-9][1-9][0-9]{7}. */
  predicate IsSubscriberNumber(t: string)
  {
    && |t| == 9
    && '6' <= t[0] <= '9'
    && '1' <= t[1] <= '9'
    && forall i :: 2 <= i < 9 ==> IsDigit(t[i])
  }

  /** `(\+?27|0)` followed by a subscriber number, and nothing else. */
  predicate IsMobileNumberBody(s: string)
  {
    || (StartsWith(s, "+27") && IsSubscriberNumber(s[3..]))
    || (StartsWith(s, "27") && IsSubscriberNumber(s[2..]))
    || (StartsWith(s, "0") && IsSubscriberNumber(s[1..]))
  }

  /**
   * What `^(\+?27|0)[6-9][1-9][0-9]{7}$` matches: without RegexOptions.Multiline
   * `$` matches at the very end and also just before a final "\n".
   */
  predicate MatchesMobilePattern(s: string)
  {
    IsMobileNumberBody(s) || (|s| > 0 && s[|s| - 1] == '\n' && IsMobileNumberBody(s[..|s| - 1]))
  }

  /** The states of a hand-written automaton for the pattern: `Body(k)` has read k subscriber digits. */
  datatype MobileState = Start | Plus | Two | Body(k: nat) | Newline | Dead

  /** The class of the subscriber digit at position k. */
  predicate SubscriberDigitOk(k: nat, c: char)
  {
    if k == 0 then '6' <= c <= '9' else if k == 1 then '1' <= c <= '9' else IsDigit(c)
  }

  function MobileStep(q: MobileState, c: char): MobileState
  {
    match q
    case Start => if c == '+' then Plus else if c == '2' then Two else if c == '0' then Body(0) else Dead
    case Plus => if c == '2' then Two else Dead
    case Two => if c == '7' then Body(0) else Dead
    case Body(k) =>
      if k < 9 && SubscriberDigitOk(k, c) then Body(k + 1)
      else if k == 9 && c == '\n' then Newline
      else Dead
    case Newline => Dead
    case Dead => Dead
  }

  function MobileRun(q: MobileState, s: string): MobileState
    decreases |s|
  {
    if s == [] then q else MobileRun(MobileStep(q, s[0]), s[1..])
  }

  predicate MobileAccepts(q: MobileState)
  {
    q == Body(9) || q == Newline
  }

  /** IsValidMobileNumber: the automaton accepts exactly what the pattern matches. */
  function IsValidMobileNumber(input: string): (valid: bool)
    ensures valid <==> MatchesMobilePattern(input)
  {
    MobileRunMatches(input);
    MobileAccepts(MobileRun(Start, input))
  }

  /** The subscriber digits from position k on, then the optional final "\n". */
  predicate SubscriberTail(k: nat, t: string)
    requires k <= 9
  {
    var n := 9 - k;
    && (|t| == n || (|t| == n + 1 && t[n] == '\n'))
    && forall i :: 0 <= i < n ==> SubscriberDigitOk(k + i, t[i])
  }

  lemma {:induction false} BodyRun(k: nat, t: string)
    requires k <= 9
    ensures MobileAccepts(MobileRun(Body(k), t)) <==> SubscriberTail(k, t)
    decreases |t|
  {
    if t == [] {
    } else if k < 9 {
      BodyRun(k + 1, t[1..]);
      if SubscriberDigitOk(k, t[0]) {
        assert forall i :: 1 <= i < |t| ==> t[i] == t[1..][i - 1];
      } else {
        DeadRun(t[1..]);
      }
    } else {
      if t[0] == '\n' {
        NewlineRun(t[1..]);
      } else {
        DeadRun(t[1..]);
      }
    }
  }

  lemma {:induction false} DeadRun(t: string)
    ensures MobileRun(Dead, t) == Dead
    decreases |t|
  {
    if t != [] {
      DeadRun(t[1..]);
    }
  }

  lemma NewlineRun(t: string)
    ensures MobileAccepts(MobileRun(Newline, t)) <==> t == []
  {
    if t != [] {
      DeadRun(t[1..]);
    }
  }

  /** SubscriberTail(0, _) is the declarative pattern after the prefix. */
  lemma SubscriberTailAtStart(t: string)
    ensures SubscriberTail(0, t) <==>
      IsSubscriberNumber(t) || (|t| > 0 && t[|t| - 1] == '\n' && IsSubscriberNumber(t[..|t| - 1]))
  {
    if |t| == 10 && t[9] == '\n' {
      assert forall i :: 0 <= i < 9 ==> t[..9][i] == t[i];
    }
  }

  /** After a prefix p, the rest is a subscriber number, optionally followed by "\n". */
  lemma AfterPrefix(s: string, p: string)
    requires StartsWith(s, p)
    ensures SubscriberTail(0, s[|p|..]) <==>
      IsSubscriberNumber(s[|p|..]) || (|s| > |p| && s[|s| - 1] == '\n' && IsSubscriberNumber(s[..|s| - 1][|p|..]))
  {
    SubscriberTailAtStart(s[|p|..]);
    if |s| > |p| {
      assert s[|p|..][..|s| - |p| - 1] == s[..|s| - 1][|p|..];
    }
  }

  /** A string starting with none of the three prefixes, even without a final character, is not a mobile number. */
  lemma NoPrefixNoMatch(s: string)
    requires !StartsWith(s, "+27") && !StartsWith(s, "27") && !StartsWith(s, "0")
    ensures !MatchesMobilePattern(s)
  {
    if |s| > 0 {
      var init := s[..|s| - 1];
      forall p | p in ["+27", "27", "0"] && StartsWith(init, p) ensures StartsWith(s, p) {
        assert s[..|p|] == init[..|p|];
      }
    }
  }

  lemma PlusRunMatches(s: string)
    requires |s| > 0 && s[0] == '+'
    ensures MobileAccepts(MobileRun(Start, s)) <==> MatchesMobilePattern(s)
  {
    assert MobileRun(Start, s) == MobileRun(Plus, s[1..]);
    if |s| >= 3 && s[1] == '2' && s[2] == '7' {
      assert s[1..][1..][1..] == s[3..];
      assert MobileRun(Plus, s[1..]) == MobileRun(Two, s[1..][1..]) == MobileRun(Body(0), s[3..]);
      BodyRun(0, s[3..]);
      AfterPrefix(s, "+27");
    } else {
      if |s| >= 2 {
        assert s[1..][1..] == s[2..];
        if s[1] == '2' {
          assert MobileRun(Plus, s[1..]) == MobileRun(Two, s[2..]);
          if |s| >= 3 {
            assert s[2..][1..] == s[3..];
            DeadRun(s[3..]);
          }
        } else {
          assert MobileRun(Plus, s[1..]) == MobileRun(Dead, s[2..]);
          DeadRun(s[2..]);
        }
      }
      if |s| >= 3 {
        assert s[..3][1] == s[1] && s[..3][2] == s[2];
      }
      NoPrefixNoMatch(s);
    }
  }

  lemma TwoRunMatches(s: string)
    requires |s| > 0 && s[0] == '2'
    ensures MobileAccepts(MobileRun(Start, s)) <==> MatchesMobilePattern(s)
  {
    assert MobileRun(Start, s) == MobileRun(Two, s[1..]);
    if |s| >= 2 && s[1] == '7' {
      assert s[1..][1..] == s[2..];
      BodyRun(0, s[2..]);
      AfterPrefix(s, "27");
    } else {
      if |s| >= 2 {
        assert s[1..][1..] == s[2..];
        DeadRun(s[2..]);
        assert s[..2][1] == s[1];
      }
      NoPrefixNoMatch(s);
    }
  }

  lemma MobileRunMatches(s: string)
    ensures MobileAccepts(MobileRun(Start, s)) <==> MatchesMobilePattern(s)
  {
    if s == [] {
      NoPrefixNoMatch(s);
    } else if s[0] == '+' {
      PlusRunMatches(s);
    } else if s[0] == '2' {
      TwoRunMatches(s);
    } else if s[0] == '0' {
      BodyRun(0, s[1..]);
      AfterPrefix(s, "0");
    } else {
      DeadRun(s[1..]);
      assert s[..1][0] == s[0];
      NoPrefixNoMatch(s);
    }
  }

  /** A national number. */
  lemma NationalMobileNumberAccepted()
    ensures IsValidMobileNumber("0821234567")
  {
    var s := "0821234567";
    assert StartsWith(s, "0") by { assert s[..1] == "0"; }
    assert IsSubscriberNumber(s[1..]);
  }

  /** The same national number followed by the final newline `$` tolerates. */
  lemma TrailingNewlineAccepted()
    ensures IsValidMobileNumber("0821234567\n")
  {
    var s := "0821234567\n";
    assert s[..|s| - 1] == "0821234567";
    assert StartsWith(s[..|s| - 1], "0") by { assert s[..|s| - 1][..1] == "0"; }
    assert IsSubscriberNumber(s[..|s| - 1][1..]);
  }

  /** The international spelling without the plus sign. */
  lemma InternationalMobileNumberAccepted()
    ensures IsValidMobileNumber("27821234567")
  {
    var s := "27821234567";
    assert StartsWith(s, "27") by { assert s[..2] == "27"; }
    assert IsSubscriberNumber(s[2..]);
  }

  /** The international spelling with the plus sign. */
  lemma PlusInternationalMobileNumberAccepted()
    ensures IsValidMobileNumber("+27821234567")
  {
    var s := "+27821234567";
    assert StartsWith(s, "+27") by { assert s[..3] == "+27"; }
    assert IsSubscriberNumber(s[3..]);
  }

  /** A first subscriber digit below 6 is refused. */
  lemma LowOperatorDigitRefused()
    ensures !IsValidMobileNumber("0521234567")
  {
    assert "0521234567"[1..][0] == '5';
  }

  /** A zero second subscriber digit is refused. */
  lemma ZeroSecondDigitRefused()
    ensures !IsValidMobileNumber("0801234567")
  {
    assert "0801234567"[1..][1] == '0';
  }

  /** A number one digit short is refused. */
  lemma ShortMobileNumberRefused()
    ensures !IsValidMobileNumber("082123456")
  {
  }

  // ---------------------------------------------------------------------------
  // Reverse (lines 46-51)

  /** The characters of `s` in reverse order. */
  function Reversed(s: string): string
  {
    if s == [] then [] else Reversed(s[1..]) + [s[0]]
  }

  lemma {:induction false} ReversedAt(s: string)
    ensures |Reversed(s)| == |s|
    ensures forall i :: 0 <= i < |s| ==> Reversed(s)[i] == s[|s| - 1 - i]
    decreases |s|
  {
    if s != [] {
      ReversedAt(s[1..]);
    }
  }

  /** Reversing twice gives back the string. */
  lemma ReversedTwice(s: string)
    ensures Reversed(Reversed(s)) == s
  {
    ReversedAt(s);
    ReversedAt(Reversed(s));
  }

  /** Reversal of a concatenation. */
  lemma ReversedAppend(a: string, b: string)
    ensures Reversed(a + b) == Reversed(b) + Reversed(a)
  {
    ReversedAt(a + b);
    ReversedAt(a);
    ReversedAt(b);
    ReversedAt(Reversed(b) + Reversed(a));
  }

  /** Array.Reverse: swaps the two ends towards the middle. */
  method ReverseInPlace(a: array<char>)
    modifies a
    ensures a[..] == Reversed(old(a[..]))
  {
    var n := a.Length;
    var i := 0;
    while i < n / 2
      invariant 0 <= i <= n / 2
      invariant forall k :: 0 <= k < i ==> a[k] == old(a[n - 1 - k]) && a[n - 1 - k] == old(a[k])
      invariant forall k :: i <= k < n - i ==> a[k] == old(a[k])
    {
      a[i], a[n - 1 - i] := a[n - 1 - i], a[i];
      i := i + 1;
    }
    ReversedAt(old(a[..]));
  }

  /** Reverse: the string's characters copied to an array, reversed there and read back. */
  method Reverse(input: string) returns (r: string)
    ensures r == Reversed(input)
    ensures |r| == |input| && forall i :: 0 <= i < |r| ==> r[i] == input[|input| - 1 - i]
  {
    var chars := new char[|input|](i requires 0 <= i < |input| => input[i]);
    assert chars[..] == input;
    ReverseInPlace(chars);
    r := chars[..];
    ReversedAt(input);
  }

  // ---------------------------------------------------------------------------
  // SplitInHalf (lines 59-87)

  datatype Halves = Halves(first: string, second: string)

  /**
   * Null for blank input; otherwise the two halves, the first one shorter by
   * default and longer with `firstHalfBigger` when the length is odd.
   * Math.Ceiling(length / 2.0) is (length + 1) / 2.
   */
  function SplitInHalf(input: string, firstHalfBigger: bool): (r: Option<Halves>)
    ensures r.None? <==> IsBlank(input)
    ensures r.Some? ==> r.value.first + r.value.second == input
    ensures r.Some? ==> |r.value.first| == if firstHalfBigger then (|input| + 1) / 2 else |input| / 2
  {
    if IsBlank(input) then None
    else
      var half := if firstHalfBigger then (|input| + 1) / 2 else |input| / 2;
      Some(Halves(input[..half], input[half..]))
  }

  /** The two halves differ in length by at most one, the longer one being the one asked for. */
  lemma SplitInHalfBalanced(input: string, firstHalfBigger: bool)
    requires !IsBlank(input)
    ensures var h := SplitInHalf(input, firstHalfBigger).value;
      && (firstHalfBigger ==> |h.second| <= |h.first| <= |h.second| + 1)
      && (!firstHalfBigger ==> |h.first| <= |h.second| <= |h.first| + 1)
      && (|input| % 2 == 0 ==> |h.first| == |h.second|)
  {
  }

  // ---------------------------------------------------------------------------
  // ToUppercaseFirst (lines 105-116)

  /** The text with its first character upper-cased, unless it is blank or already starts upper-case. */
  function UppercaseFirst(text: string): string
  {
    if IsBlank(text) || IsAsciiUpper(text[0]) then text else [UpperChar(text[0])] + text[1..]
  }

  /** ToUppercaseFirst: a copy of the text as an array whose first cell is overwritten. */
  method ToUppercaseFirst(text: string) returns (r: string)
    ensures r == UppercaseFirst(text)
  {
    if IsBlank(text) || IsAsciiUpper(text[0]) {
      return text;
    }
    var a := new char[|text|](i requires 0 <= i < |text| => text[i]);
    a[0] := UpperChar(a[0]);
    r := a[..];
    assert r == [UpperChar(text[0])] + text[1..];
  }

  /** Only the first character changes, to its upper-case form; the length is kept. */
  lemma UppercaseFirstChangesOnlyFirst(text: string)
    ensures |UppercaseFirst(text)| == |text|
    ensures IsBlank(text) ==> UppercaseFirst(text) == text
    ensures !IsBlank(text) ==>
      && UppercaseFirst(text)[0] == UpperChar(text[0])
      && UppercaseFirst(text)[1..] == text[1..]
  {
  }

  /** Upper-casing the first character twice is the same as once. */
  lemma UppercaseFirstIdempotent(text: string)
    ensures UppercaseFirst(UppercaseFirst(text)) == UppercaseFirst(text)
  {
    var r := UppercaseFirst(text);
    if !IsBlank(text) && !IsAsciiUpper(text[0]) {
      assert r[1..] == text[1..];
      if IsBlank(r) {
      } else {
        assert UpperChar(r[0]) == r[0];
        assert [r[0]] + r[1..] == r;
      }
    }
  }

  // ---------------------------------------------------------------------------
  // Base64Encode and Base64Decode (lines 35-39, 94-98)

  /**
   * UTF-8 followed by Base64, and back. `decode` yields None where
   * Convert.FromBase64String throws a FormatException.
   */
  datatype Base64Codec = Base64Codec(encode: string -> string, decode: string -> Option<string>)

  predicate IsBase64Char(c: char)
  {
    IsAsciiUpper(c) || IsAsciiLower(c) || IsDigit(c) || c == '+' || c == '/'
  }

  /** Base64 text: a multiple of four characters, the alphabet, then at most two '='. */
  predicate IsPaddedBase64(t: string)
  {
    var body := TrimEndChar(t, '=');
    && |t| % 4 == 0
    && |t| - |body| <= 2
    && forall i :: 0 <= i < |body| ==> IsBase64Char(body[i])
  }

  /**
   * What the code relies on of the converters: decoding undoes encoding,
   * the output is padded Base64, empty only for empty input, and not
   * longer than 8n + 4 characters for n characters of input (at most 4n
   * UTF-8 bytes, and 4 Base64 characters per 3 bytes, rounded up).
   */
  ghost predicate ValidCodec(codec: Base64Codec)
  {
    && (forall s :: codec.decode(codec.encode(s)) == Some(s))
    && (forall s :: IsPaddedBase64(codec.encode(s)))
    && (forall s :: s != [] ==> codec.encode(s) != [])
    && (forall s :: |codec.encode(s)| <= 8 * |s| + 4)
  }
}
