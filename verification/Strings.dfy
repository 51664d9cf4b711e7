/**
 Joining pieces of text.
 */
module Strings {

  function HexDigit(d: nat): char
    requires d < 16
  {
    "0123456789abcdef"[d]
  }

  function Decimal(n: nat): (s: string) {
    if n < 10 then [('0' as int + n) as char] else Decimal(n / 10) + Decimal(n % 10)
  }

  lemma {:induction false} DecimalChars(n: nat)
    ensures var s := Decimal(n);
      && s != "" && (forall i :: 0 <= i < |s| ==> '0' <= s[i] <= '9')
      && (|s| == 1 <==> n < 10) && (n > 0 ==> s[0] != '0')
  {
    if n >= 10 { DecimalChars(n / 10); }
  }

  // A numeral names one number.
  lemma {:induction false} DecimalOne(m: nat, n: nat)
    requires Decimal(m) == Decimal(n)
    ensures m == n
    decreases m
  {
    DecimalChars(m);
    DecimalChars(n);
    if m >= 10 {
      DecimalChars(m % 10);
      DecimalChars(n % 10);
      var s, t := Decimal(m), Decimal(n);
      assert s[..|s| - 1] == Decimal(m / 10) && t[..|t| - 1] == Decimal(n / 10);
      assert s[|s| - 1] == Decimal(m % 10)[0] && t[|t| - 1] == Decimal(n % 10)[0];
      DecimalOne(m / 10, n / 10);
    }
  }

  function Flatten(parts: seq<string>): string {
    if parts == [] then "" else parts[0] + Flatten(parts[1..])
  }

  lemma Regroup(a: string, b: string, c: string)
    ensures a + (b + c) == (a + b) + c
  {}

  lemma {:induction false} FlattenAppend(a: seq<string>, b: seq<string>)
    ensures Flatten(a + b) == Flatten(a) + Flatten(b)
  {
    if a == [] {
      assert a + b == b;
    } else {
      FlattenAppend(a[1..], b);
      assert (a + b)[1..] == a[1..] + b;
      Regroup(a[0], Flatten(a[1..]), Flatten(b));
    }
  }

  lemma FlattenNone()
    ensures Flatten([]) == ""
  {}

  lemma FlattenOne(part: string)
    ensures Flatten([part]) == part
  {
    assert [part][1..] == [];
  }

  lemma FlattenSnoc(parts: seq<string>, last: string)
    ensures Flatten(parts + [last]) == Flatten(parts) + last
  {
    FlattenAppend(parts, [last]);
    FlattenOne(last);
  }

  lemma FlattenCons(first: string, more: seq<string>)
    ensures Flatten([first] + more) == first + Flatten(more)
  {
    assert ([first] + more)[1..] == more;
  }
}
