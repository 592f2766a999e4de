/** The string helpers of Go's standard library that the core uses: `%d`
    formatting, `strings.Join`, and the ASCII part of `strings.ToLower` and
    `strings.Title`. */
module Text {

  function Digit(d: nat): char
    requires d < 10
  {
    "0123456789"[d]
  }

  /** `fmt.Sprintf("%d", n)` for a natural number. */
  function Dec(n: nat): (s: string)
    ensures |s| >= 1
    ensures n < 10 <==> |s| == 1
    decreases n
  {
    if n < 10 then [Digit(n)] else Dec(n / 10) + [Digit(n % 10)]
  }

  lemma DigitInjective(a: nat, b: nat)
    requires a < 10 && b < 10 && Digit(a) == Digit(b)
    ensures a == b
  {
  }

  /** Different numbers print differently. */
  lemma {:induction false} DecInjective(a: nat, b: nat)
    requires Dec(a) == Dec(b)
    ensures a == b
  {
    var da, db := Dec(a), Dec(b);
    if a >= 10 && b >= 10 {
      var ha, hb := Dec(a / 10), Dec(b / 10);
      assert da == ha + [Digit(a % 10)] && db == hb + [Digit(b % 10)];
      assert |ha| == |hb|;
      assert Digit(a % 10) == da[|da| - 1] == db[|db| - 1] == Digit(b % 10);
      DigitInjective(a % 10, b % 10);
      assert ha == da[..|da| - 1] == db[..|db| - 1] == hb;
      DecInjective(a / 10, b / 10);
    } else if a < 10 && b < 10 {
      assert Digit(a) == da[0] == db[0] == Digit(b);
      DigitInjective(a, b);
    }
  }

  /** A printed number is made of decimal digits only. */
  lemma {:induction false} DecDigits(n: nat)
    ensures forall k :: 0 <= k < |Dec(n)| ==> '0' <= Dec(n)[k] <= '9'
    decreases n
  {
    if n >= 10 {
      DecDigits(n / 10);
    }
  }

  /** `strings.Join(parts, sep)`. */
  function Join(parts: seq<string>, sep: string): string
    decreases |parts|
  {
    if |parts| == 0 then ""
    else if |parts| == 1 then parts[0]
    else parts[0] + sep + Join(parts[1..], sep)
  }

  /** Joining one more part appends the separator and that part. */
  lemma {:induction false} JoinSnoc(parts: seq<string>, last: string, sep: string)
    ensures Join(parts + [last], sep) == if parts == [] then last else Join(parts, sep) + sep + last
    decreases |parts|
  {
    if |parts| >= 2 {
      JoinSnoc(parts[1..], last, sep);
      assert (parts + [last])[1..] == parts[1..] + [last];
    } else if |parts| == 1 {
      assert (parts + [last])[1..] == [last];
    }
  }

  function LowerChar(c: char): char
  {
    if 'A' <= c <= 'Z' then (c as int + 32) as char else c
  }

  function TitleChar(c: char): char
  {
    if 'a' <= c <= 'z' then (c as int - 32) as char else c
  }

  /** `strings.ToLower`, on ASCII letters. */
  function ToLower(s: string): string
  {
    seq(|s|, k requires 0 <= k < |s| => LowerChar(s[k]))
  }

  /** The word separators of `strings.Title`: among ASCII characters,
      everything but letters, digits and the underscore. */
  predicate IsSeparator(c: char)
  {
    c as int <= 0x7F && !('0' <= c <= '9' || 'a' <= c <= 'z' || 'A' <= c <= 'Z' || c == '_')
  }

  /** `strings.Title` continuing after the character `prev`. */
  function TitleAfter(s: string, prev: char): (r: string)
    ensures |r| == |s|
    decreases |s|
  {
    if s == [] then []
    else [if IsSeparator(prev) then TitleChar(s[0]) else s[0]] + TitleAfter(s[1..], s[0])
  }

  /** `strings.Title`: the scan starts as if after a space. */
  function Title(s: string): string
  {
    TitleAfter(s, ' ')
  }

  lemma {:induction false} TitleAfterAt(s: string, prev: char, k: nat)
    requires k < |s|
    ensures TitleAfter(s, prev)[k]
         == if (if k == 0 then IsSeparator(prev) else IsSeparator(s[k - 1])) then TitleChar(s[k]) else s[k]
    decreases k
  {
    if k > 0 {
      TitleAfterAt(s[1..], s[0], k - 1);
    }
  }

  /** `strings.Title(strings.ToLower(s))`: a letter is upper case exactly
      when it starts a word, and lower case otherwise. */
  lemma TitleLowerAt(s: string, k: nat)
    requires k < |s|
    ensures |Title(ToLower(s))| == |s|
    ensures Title(ToLower(s))[k]
         == if k == 0 || IsSeparator(s[k - 1]) then TitleChar(LowerChar(s[k])) else LowerChar(s[k])
  {
    TitleAfterAt(ToLower(s), ' ', k);
    if k > 0 {
      assert IsSeparator(ToLower(s)[k - 1]) == IsSeparator(s[k - 1]);
    }
  }
}
