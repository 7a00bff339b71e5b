/** Base-10 text of integers as bytes: what Go's strconv.FormatInt and
    strconv.FormatUint produce with base 10, and the strict parser a Redis
    server applies to a stored value before INCRBY (no sign other than a
    leading '-', no leading zeros, no "-0"). */
module Decimal {
  import opened Base

  const ZERO: byte := 48   // '0'
  const MINUS: byte := 45  // '-'

  predicate IsDigit(b: byte) {
    ZERO <= b <= ZERO + 9
  }

  predicate AllDigits(s: seq<byte>) {
    forall i :: 0 <= i < |s| ==> IsDigit(s[i])
  }

  /** A digit string in the only form FormatInt writes: not empty, and no
      leading zero unless the number is zero itself. */
  predicate Canonical(s: seq<byte>) {
    |s| >= 1 && AllDigits(s) && (s[0] == ZERO ==> |s| == 1)
  }

  /** The digits of `n`, most significant first. */
  function Digits(n: nat): (r: seq<byte>)
    ensures Canonical(r)
    ensures r[0] == ZERO <==> n == 0
    decreases n
  {
    if n < 10 then [ZERO + n] else Digits(n / 10) + [ZERO + n % 10]
  }

  /** FormatInt(i, 10). FormatUint(u, 10) is the same text for u >= 0. */
  function FormatInt(i: int): seq<byte> {
    if i < 0 then [MINUS] + Digits(-i) else Digits(i)
  }

  /** The number a digit string denotes. */
  function Denotes(s: seq<byte>): nat
    requires AllDigits(s)
  {
    if s == [] then 0 else Denotes(s[..|s| - 1]) * 10 + (s[|s| - 1] - ZERO)
  }

  /** The strict decimal parser; None for every text that FormatInt cannot
      produce. */
  function ParseInt(s: seq<byte>): Option<int> {
    if |s| >= 2 && s[0] == MINUS && Canonical(s[1..]) && s[1] != ZERO then Some(-(Denotes(s[1..]) as int))
    else if Canonical(s) then Some(Denotes(s))
    else None
  }

  lemma {:induction false} ValueOfDigits(n: nat)
    ensures Denotes(Digits(n)) == n
    decreases n
  {
    if n >= 10 {
      ValueOfDigits(n / 10);
      var d := Digits(n / 10) + [ZERO + n % 10];
      assert d[..|d| - 1] == Digits(n / 10);
    }
  }

  lemma {:induction false} DigitsOfValue(s: seq<byte>)
    requires Canonical(s)
    ensures Digits(Denotes(s)) == s
    decreases |s|
  {
    if |s| >= 2 {
      var t := s[..|s| - 1];
      assert t[0] == s[0];
      DigitsOfValue(t);
      var v := Denotes(t);
      assert v != 0 by {
        assert Digits(v)[0] == t[0] != ZERO;
      }
      var n := v * 10 + (s[|s| - 1] - ZERO);
      assert n / 10 == v && n % 10 == s[|s| - 1] - ZERO;
      assert s == t + [s[|s| - 1]];
    }
  }

  /** Parsing what FormatInt wrote gives back the number. */
  lemma ParseOfFormat(i: int)
    ensures ParseInt(FormatInt(i)) == Some(i)
  {
    if i < 0 {
      var s := FormatInt(i);
      assert s[1..] == Digits(-i);
      ValueOfDigits(-i);
    } else {
      ValueOfDigits(i);
    }
  }

  /** Whatever the parser accepts is the text FormatInt writes for it. */
  lemma FormatOfParse(s: seq<byte>)
    requires ParseInt(s).Some?
    ensures s == FormatInt(ParseInt(s).value)
  {
    if |s| >= 2 && s[0] == MINUS && Canonical(s[1..]) && s[1] != ZERO {
      var t := s[1..];
      DigitsOfValue(t);
      assert Denotes(t) != 0;
      assert s == [MINUS] + t;
    } else {
      DigitsOfValue(s);
    }
  }

  /** Parsing accepts exactly the texts FormatInt writes, and gives back the
      number that was formatted. */
  lemma ParseFormat(s: seq<byte>, i: int)
    ensures ParseInt(s) == Some(i) <==> s == FormatInt(i)
  {
    ParseOfFormat(i);
    if ParseInt(s).Some? {
      FormatOfParse(s);
    }
  }
}
