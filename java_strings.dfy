/** `String.trim()`, `isEmpty()` and `length()` as the services use them. */
module JavaStrings {

  /** `trim()` strips every character whose code is at most U+0020. */
  predicate IsTrimmed(c: char) {
    c <= ' '
  }

  function TrimStart(s: string): (t: string)
    ensures |t| <= |s| && t == s[|s| - |t|..]
    ensures t == [] || !IsTrimmed(t[0])
    ensures forall i | 0 <= i < |s| - |t| :: IsTrimmed(s[i])
  {
    if |s| > 0 && IsTrimmed(s[0]) then TrimStart(s[1..]) else s
  }

  function TrimEnd(s: string): (t: string)
    ensures |t| <= |s| && t == s[..|t|]
    ensures t == [] || !IsTrimmed(t[|t| - 1])
    ensures forall i | |t| <= i < |s| :: IsTrimmed(s[i])
  {
    if |s| > 0 && IsTrimmed(s[|s| - 1]) then TrimEnd(s[..|s| - 1]) else s
  }

  /** The result is the part of `s` between its leading and trailing blanks. */
  function Trim(s: string): (t: string)
    ensures |t| <= |s|
    ensures t == [] <==> forall i | 0 <= i < |s| :: IsTrimmed(s[i])
    ensures t != [] ==> !IsTrimmed(t[0]) && !IsTrimmed(t[|t| - 1])
    ensures |t| <= |TrimStart(s)| && t == s[|s| - |TrimStart(s)|..][..|t|]
    ensures forall i | |s| - |TrimStart(s)| + |t| <= i < |s| :: IsTrimmed(s[i])
  {
    var u := TrimStart(s);
    var t := TrimEnd(u);
    var k := |s| - |u|;
    assert t == s[k..][..|t|];
    forall i | k + |t| <= i < |s| ensures IsTrimmed(s[i]) {
      assert s[i] == u[i - k];
    }
    t
  }

  /** Trimming twice is trimming once. */
  lemma {:induction false} TrimIdempotent(s: string)
    ensures Trim(Trim(s)) == Trim(s)
  {
    var t := Trim(s);
    if t != [] {
      assert TrimStart(t) == t;
      assert TrimEnd(t) == t;
    }
  }

  /**
   * `length()`: the number of UTF-16 code units. A character outside the
   * Basic Multilingual Plane is stored as a surrogate pair and counts two.
   */
  function Utf16Length(s: string): (n: nat)
    ensures |s| <= n <= 2 * |s|
    ensures n == |s| <==> forall i | 0 <= i < |s| :: s[i] <= '\U{FFFF}'
    ensures |s| == 1 ==> n == if s[0] <= '\U{FFFF}' then 1 else 2
  {
    if s == [] then 0
    else (if s[0] <= '\U{FFFF}' then 1 else 2) + Utf16Length(s[1..])
  }

  /** Lengths add up over concatenation, so each character contributes its own one or two units. */
  lemma {:induction false} Utf16LengthConcat(a: string, b: string)
    ensures Utf16Length(a + b) == Utf16Length(a) + Utf16Length(b)
    decreases |a|
  {
    if a == [] {
      assert a + b == b;
    } else {
      assert (a + b)[0] == a[0] && (a + b)[1..] == a[1..] + b;
      Utf16LengthConcat(a[1..], b);
    }
  }

  /** A single character outside the Basic Multilingual Plane survives `trim()` and has length two. */
  lemma AstralCharacterLength(c: char)
    requires c > '\U{FFFF}'
    ensures Trim([c]) == [c] && Utf16Length(Trim([c])) == 2
  {
    assert !IsTrimmed(c);
  }
}
