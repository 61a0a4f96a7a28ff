/**
 * `FlagBase.__str__` (siteflags/models.py:156-157): a flag renders as
 * `<content type>:<object id> status <status>`, with Python's `None` for a NULL
 * status. The content type is written as its integer tag. A parser for that
 * form shows that the rendering loses none of the three fields.
 */
module FlagStrings {
  import opened Wrappers
  import opened Flags

  predicate IsDigit(c: char)
  {
    '0' <= c <= '9'
  }

  predicate IsDigits(s: string)
  {
    |s| > 0 && forall i :: 0 <= i < |s| ==> IsDigit(s[i])
  }

  function DigitChar(d: nat): (c: char)
    requires d < 10
    ensures IsDigit(c) && DigitValue(c) == d
  {
    ('0' as int + d) as char
  }

  function DigitValue(c: char): (d: nat)
    requires IsDigit(c)
    ensures d < 10
  {
    c as int - '0' as int
  }

  /** Decimal digits of `n`, without leading zeros. */
  function NatToString(n: nat): (s: string)
    ensures IsDigits(s)
  {
    if n < 10 then [DigitChar(n)] else NatToString(n / 10) + [DigitChar(n % 10)]
  }

  /** Python's `str(i)` for an integer: a minus sign before the digits of a negative one. */
  function IntToString(i: int): string
  {
    if i < 0 then "-" + NatToString(-i) else NatToString(i)
  }

  /** Python's `str(status)`: the integer, or `None`. */
  function StatusToString(status: Option<int>): string
  {
    match status
    case None => "None"
    case Some(s) => IntToString(s)
  }

  /** `str(flag)`. */
  function FlagToString(f: Flag): string
  {
    IntToString(f.contentType) + ":" + NatToString(f.objectId) + " status " + StatusToString(f.status)
  }

  /** The number a non-empty string of digits denotes. */
  function DigitsValue(s: string): nat
    requires forall i :: 0 <= i < |s| ==> IsDigit(s[i])
  {
    if s == [] then 0
    else DigitsValue(s[..|s| - 1]) * 10 + DigitValue(s[|s| - 1])
  }

  function ParseNat(s: string): Option<nat>
  {
    if IsDigits(s) then Some(DigitsValue(s)) else None
  }

  function ParseInt(s: string): Option<int>
  {
    if |s| > 0 && s[0] == '-' then
      match ParseNat(s[1..])
      case Some(n) => Some(0 - n)
      case None => None
    else
      match ParseNat(s)
      case Some(n) => Some(n)
      case None => None
  }

  function ParseStatus(s: string): Option<Option<int>>
  {
    if s == "None" then Some(None)
    else
      match ParseInt(s)
      case Some(i) => Some(Some(i))
      case None => None
  }

  /** The position of the first `c` in `s`. */
  function IndexOf(s: string, c: char): (r: Option<nat>)
    ensures r.Some? ==> r.value < |s| && s[r.value] == c && c !in s[..r.value]
    ensures r.None? ==> c !in s
  {
    if s == [] then None
    else if s[0] == c then Some(0)
    else
      match IndexOf(s[1..], c)
      case Some(i) => assert s[..i + 1] == [s[0]] + s[1..][..i]; Some(i + 1)
      case None => None
  }

  /** Reads back content type, object id and status from `<int>:<nat> status <status>`. */
  function ParseFlagString(s: string): Option<(int, nat, Option<int>)>
  {
    match IndexOf(s, ':')
    case None => None
    case Some(i) =>
      var rest := s[i + 1..];
      match IndexOf(rest, ' ')
      case None => None
      case Some(j) =>
        var tail := rest[j..];
        if |tail| < 8 || tail[..8] != " status " then None
        else
          match (ParseInt(s[..i]), ParseNat(rest[..j]), ParseStatus(tail[8..]))
          case (Some(ct), Some(id), Some(st)) => Some((ct, id, st))
          case _ => None
  }

  lemma {:induction false} NatRoundTrip(n: nat)
    ensures ParseNat(NatToString(n)) == Some(n)
  {
    var s := NatToString(n);
    if n >= 10 {
      NatRoundTrip(n / 10);
      assert s[..|s| - 1] == NatToString(n / 10);
      assert DigitValue(s[|s| - 1]) == n % 10;
      assert DigitsValue(s) == DigitsValue(NatToString(n / 10)) * 10 + n % 10;
    } else {
      assert s[..0] == [];
    }
  }

  lemma IntRoundTrip(i: int)
    ensures ParseInt(IntToString(i)) == Some(i)
  {
    if i < 0 {
      NatRoundTrip(-i);
      assert IntToString(i)[1..] == NatToString(-i);
    } else {
      NatRoundTrip(i);
      assert IsDigit(NatToString(i)[0]);
    }
  }

  lemma StatusRoundTrip(status: Option<int>)
    ensures ParseStatus(StatusToString(status)) == Some(status)
  {
    if status.Some? {
      var s := IntToString(status.value);
      IntRoundTrip(status.value);
      assert s[0] == '-' || IsDigit(s[0]);
      assert s != "None";
    }
  }

  lemma {:induction false} IndexOfAfter(a: string, c: char, rest: string)
    requires c !in a && |rest| > 0 && rest[0] == c
    ensures IndexOf(a + rest, c) == Some(|a|)
  {
    if a != [] {
      IndexOfAfter(a[1..], c, rest);
      assert (a + rest)[1..] == a[1..] + rest;
    }
  }

  lemma NoSeparators(i: int, n: nat)
    ensures ':' !in IntToString(i)
    ensures ' ' !in NatToString(n)
  {
  }

  /** Splitting `a + [c] + rest` at the first `c` gives back `a` and `rest` when `a` holds no `c`. */
  lemma SplitAt(a: string, c: char, rest: string)
    requires c !in a
    ensures IndexOf(a + [c] + rest, c) == Some(|a|)
    ensures (a + [c] + rest)[..|a|] == a && (a + [c] + rest)[|a| + 1..] == rest
  {
    IndexOfAfter(a, c, [c] + rest);
    assert a + [c] + rest == a + ([c] + rest);
  }

  /** The parser splits `<a>:<b> status <c>` into its three fields when `a` holds no colon and `b` no space. */
  lemma ParseFields(a: string, b: string, c: string)
    requires ':' !in a && ' ' !in b
    ensures var r := ParseFlagString(a + [':'] + (b + (" status " + c)));
      && (r.Some? <==> ParseInt(a).Some? && ParseNat(b).Some? && ParseStatus(c).Some?)
      && (r.Some? ==> r.value == (ParseInt(a).value, ParseNat(b).value, ParseStatus(c).value))
  {
    var tail := " status " + c;
    var rest := b + tail;
    SplitAt(a, ':', rest);
    assert rest == b + [' '] + "status " + c;
    IndexOfAfter(b, ' ', tail);
    assert rest[..|b|] == b && rest[|b|..] == tail;
    assert tail[..8] == " status " && tail[8..] == c;
  }

  /** The rendering of a flag parses back to its content type, object id and status. */
  lemma FlagStringRoundTrip(f: Flag)
    ensures ParseFlagString(FlagToString(f)) == Some((f.contentType, f.objectId, f.status))
  {
    var a := IntToString(f.contentType);
    var b := NatToString(f.objectId);
    var c := StatusToString(f.status);
    NoSeparators(f.contentType, f.objectId);
    assert FlagToString(f) == a + [':'] + (b + (" status " + c));
    ParseFields(a, b, c);
    IntRoundTrip(f.contentType);
    NatRoundTrip(f.objectId);
    StatusRoundTrip(f.status);
  }

  /** Two flags render alike only when content type, object id and status agree. */
  lemma FlagStringDistinguishes(f: Flag, g: Flag)
    requires FlagToString(f) == FlagToString(g)
    ensures f.contentType == g.contentType && f.objectId == g.objectId && f.status == g.status
  {
    FlagStringRoundTrip(f);
    FlagStringRoundTrip(g);
  }
}
