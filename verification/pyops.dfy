/** The few Python and JavaScript built-ins whose exact behaviour the model
    depends on: `int()` truncation, list indexing with negative indices,
    `list.index`, `list.remove`, and decimal printing of counters. */
module PyOps {
  import opened Wrappers

  /** `int(x)` on a float truncates toward zero. */
  function Trunc(x: real): (r: int)
    ensures x >= 0.0 ==> r >= 0 && r as real <= x < r as real + 1.0
    ensures x < 0.0 ==> r <= 0 && r as real - 1.0 < x <= r as real
  {
    if x >= 0.0 then x.Floor else -((-x).Floor)
  }

  /** `s[i]` on a list of length `len`: negative indices count from the end,
      anything outside `[-len, len)` raises IndexError. */
  function WrapIndex(len: nat, i: int): (r: Option<nat>)
    ensures r.Some? <==> -(len as int) <= i < len
    ensures 0 <= i < len ==> r == Some(i)
    ensures -(len as int) <= i < 0 ==> r == Some(i + len)
  {
    if 0 <= i < len then Some(i)
    else if -(len as int) <= i < 0 then Some(i + len)
    else None
  }

  /** `list.index(x)`: the first position holding `x`, or None where Python raises ValueError. */
  function IndexOf<T(==)>(s: seq<T>, x: T): (r: Option<nat>)
    ensures r.Some? ==> r.value < |s| && s[r.value] == x
    ensures r.Some? ==> forall j :: 0 <= j < r.value ==> s[j] != x
    ensures r.None? <==> x !in s
  {
    if |s| == 0 then None
    else if s[0] == x then Some(0)
    else match IndexOf(s[1..], x)
      case Some(k) => Some(k + 1)
      case None => None
  }

  /** In a list without repeats, the element at position `k` is found at `k`. */
  lemma IndexOfDistinct<T>(s: seq<T>, k: nat)
    requires k < |s|
    requires forall i, j :: 0 <= i < j < |s| ==> s[i] != s[j]
    ensures IndexOf(s, s[k]) == Some(k)
  {
  }

  /** `list.remove(x)`: drops the first occurrence of `x`; ValueError when there is none. */
  function RemoveFirst<T(==)>(s: seq<T>, x: T): (r: Result<seq<T>>)
    ensures r.Ok? <==> x in s
    ensures r.Ok? ==> IndexOf(s, x).Some? && r.value == s[..IndexOf(s, x).value] + s[IndexOf(s, x).value + 1..]
    ensures r.Ok? ==> |r.value| == |s| - 1
  {
    match IndexOf(s, x)
    case None => Err("list.remove(x): x not in list")
    case Some(i) =>
      assert s == s[..i] + [s[i]] + s[i + 1..];
      Ok(s[..i] + s[i + 1..])
  }

  /** `list.remove` takes exactly one occurrence of `x` out. */
  lemma RemoveFirstCount<T>(s: seq<T>, x: T)
    ensures RemoveFirst(s, x).Ok? ==> multiset(RemoveFirst(s, x).value) == multiset(s) - multiset{x}
  {
    if RemoveFirst(s, x).Ok? {
      var i := IndexOf(s, x).value;
      assert s == s[..i] + [s[i]] + s[i + 1..];
    }
  }

  /** `list.remove` adds nothing: what is left was in the list. */
  lemma RemoveFirstKeeps<T>(s: seq<T>, x: T)
    ensures RemoveFirst(s, x).Ok? ==> forall f :: f in RemoveFirst(s, x).value ==> f in s
  {
    if RemoveFirst(s, x).Ok? {
      var r := RemoveFirst(s, x).value;
      RemoveFirstCount(s, x);
      forall f | f in r
        ensures f in s
      {
        assert multiset(r)[f] > 0;
      }
    }
  }

  /** Removing the head of a list drops its first element. */
  lemma RemoveHead<T>(s: seq<T>)
    requires |s| > 0
    ensures RemoveFirst(s, s[0]) == Ok(s[1..])
  {
    assert s[..0] + s[1..] == s[1..];
  }

  /** The digit character of `d`. */
  function Digit(d: nat): (c: char)
    requires d < 10
    ensures '0' <= c <= '9' && (c as int) - ('0' as int) == d
  {
    (('0' as int) + d) as char
  }

  /** The decimal form of `n`, as Python's `str`, f-strings and JavaScript template literals print it. */
  function NatToString(n: nat): (r: string)
    ensures |r| > 0 && forall i :: 0 <= i < |r| ==> '0' <= r[i] <= '9'
    ensures n > 0 ==> r[0] != '0'
    decreases n
  {
    if n < 10 then [Digit(n)] else NatToString(n / 10) + [Digit(n % 10)]
  }

  /** How many blocks of ten decimal digits there are besides the ASCII one
      (the characters of Unicode general category Nd, Unicode 15.0). */
  const OtherDigitBlocks := 67

  /** The zero of block `k`; the blocks are in increasing order and each
      holds the digits 0 to 9 in order. */
  function OtherDigitZero(k: nat): int
    requires k < OtherDigitBlocks
  {
    match k
    case 0 => 0x660
    case 1 => 0x6F0
    case 2 => 0x7C0
    case 3 => 0x966
    case 4 => 0x9E6
    case 5 => 0xA66
    case 6 => 0xAE6
    case 7 => 0xB66
    case 8 => 0xBE6
    case 9 => 0xC66
    case 10 => 0xCE6
    case 11 => 0xD66
    case 12 => 0xDE6
    case 13 => 0xE50
    case 14 => 0xED0
    case 15 => 0xF20
    case 16 => 0x1040
    case 17 => 0x1090
    case 18 => 0x17E0
    case 19 => 0x1810
    case 20 => 0x1946
    case 21 => 0x19D0
    case 22 => 0x1A80
    case 23 => 0x1A90
    case 24 => 0x1B50
    case 25 => 0x1BB0
    case 26 => 0x1C40
    case 27 => 0x1C50
    case 28 => 0xA620
    case 29 => 0xA8D0
    case 30 => 0xA900
    case 31 => 0xA9D0
    case 32 => 0xA9F0
    case 33 => 0xAA50
    case 34 => 0xABF0
    case 35 => 0xFF10
    case 36 => 0x104A0
    case 37 => 0x10D30
    case 38 => 0x11066
    case 39 => 0x110F0
    case 40 => 0x11136
    case 41 => 0x111D0
    case 42 => 0x112F0
    case 43 => 0x11450
    case 44 => 0x114D0
    case 45 => 0x11650
    case 46 => 0x116C0
    case 47 => 0x11730
    case 48 => 0x118E0
    case 49 => 0x11950
    case 50 => 0x11C50
    case 51 => 0x11D50
    case 52 => 0x11DA0
    case 53 => 0x11F50
    case 54 => 0x16A60
    case 55 => 0x16AC0
    case 56 => 0x16B50
    case 57 => 0x1D7CE
    case 58 => 0x1D7D8
    case 59 => 0x1D7E2
    case 60 => 0x1D7EC
    case 61 => 0x1D7F6
    case 62 => 0x1E140
    case 63 => 0x1E2F0
    case 64 => 0x1E4F0
    case 65 => 0x1E950
    case _ => 0x1FBF0
  }

  /** The zero of the block numbered `k` or later that holds code point
      `p`, if any. */
  function BlockZero(p: int, k: nat): (r: Option<int>)
    requires k <= OtherDigitBlocks
    ensures r.Some? ==> r.value <= p < r.value + 10
    ensures r.None? ==> forall j :: k <= j < OtherDigitBlocks ==> !(OtherDigitZero(j) <= p < OtherDigitZero(j) + 10)
    decreases OtherDigitBlocks - k
  {
    if k == OtherDigitBlocks then None
    else if OtherDigitZero(k) <= p < OtherDigitZero(k) + 10 then Some(OtherDigitZero(k))
    else BlockZero(p, k + 1)
  }

  /** A Unicode decimal digit: what regex `\d` matches in a `str` pattern and
      what `float` and `int` read as a digit. */
  predicate IsDecimal(c: char) {
    ('0' <= c <= '9') || (c as int >= 0x660 && BlockZero(c as int, 0).Some?)
  }

  /** The value of a decimal digit: its distance from its block's zero. */
  function DigitValue(c: char): (d: nat)
    requires IsDecimal(c)
    ensures d < 10
    ensures '0' <= c <= '9' ==> d == c as int - '0' as int
  {
    if '0' <= c <= '9' then c as int - '0' as int
    else c as int - BlockZero(c as int, 0).value
  }

  /** Digits from blocks other than ASCII count too: ARABIC-INDIC DIGIT
      THREE is a digit worth 3, and the letter O is no digit. */
  lemma ArabicIndicThree()
    ensures IsDecimal('\U{0663}') && DigitValue('\U{0663}') == 3
    ensures !IsDecimal('O')
  {
    assert BlockZero(0x663, 0) == Some(0x660);
  }

  /** Reading a string of decimal digits back as a number, as `int` does. */
  function ParseDigits(s: string): (n: nat)
    requires forall i :: 0 <= i < |s| ==> IsDecimal(s[i])
  {
    if |s| == 0 then 0 else 10 * ParseDigits(s[..|s| - 1]) + DigitValue(s[|s| - 1])
  }

  /** Printing a counter and reading it back gives the counter. */
  lemma {:induction false} ParseNatToString(n: nat)
    ensures ParseDigits(NatToString(n)) == n
    decreases n
  {
    if n >= 10 {
      var s := NatToString(n);
      assert s[..|s| - 1] == NatToString(n / 10);
      ParseNatToString(n / 10);
    }
  }

  /** Distinct counters print differently, so labels built from them are distinct. */
  lemma NatToStringInjective(m: nat, n: nat)
    requires NatToString(m) == NatToString(n)
    ensures m == n
  {
    ParseNatToString(m);
    ParseNatToString(n);
  }

  /** The characters Python's `str.isspace()` accepts, which `str.strip()`
      removes: the ASCII controls tab to carriage return, the separators
      U+001C to U+001F, space, U+0085, no-break space, and the Unicode space
      and line/paragraph separators. */
  predicate IsSpace(c: char) {
    ('\t' <= c <= '\r') || ('\U{001C}' <= c <= ' ') || c == '\U{0085}' || c == '\U{00A0}'
    || c == '\U{1680}' || ('\U{2000}' <= c <= '\U{200A}') || c == '\U{2028}' || c == '\U{2029}'
    || c == '\U{202F}' || c == '\U{205F}' || c == '\U{3000}'
  }

  /** `s.lstrip()`. */
  function StripLeft(s: string): (r: string)
    ensures |r| <= |s| && r == s[|s| - |r|..]
    ensures |r| > 0 ==> !IsSpace(r[0])
    ensures forall i :: 0 <= i < |s| - |r| ==> IsSpace(s[i])
  {
    if |s| > 0 && IsSpace(s[0]) then StripLeft(s[1..]) else s
  }

  /** `s.rstrip()`. */
  function StripRight(s: string): (r: string)
    ensures |r| <= |s| && r == s[..|r|]
    ensures |r| > 0 ==> !IsSpace(r[|r| - 1])
    ensures forall i :: |r| <= i < |s| ==> IsSpace(s[i])
  {
    if |s| > 0 && IsSpace(s[|s| - 1]) then StripRight(s[..|s| - 1]) else s
  }

  /** `s.strip()`: the text between the leading and the trailing whitespace. */
  function Strip(s: string): (r: string)
    ensures |r| > 0 ==> !IsSpace(r[0]) && !IsSpace(r[|r| - 1])
    ensures |r| == 0 <==> forall i :: 0 <= i < |s| ==> IsSpace(s[i])
  {
    StripRight(StripLeft(s))
  }

  /** A name that neither starts nor ends with whitespace, typed with one
      whitespace character after it, strips back to the name. */
  lemma TrailingSpaceStripped(name: string, c: char)
    requires |name| > 0 && !IsSpace(name[0]) && !IsSpace(name[|name| - 1]) && IsSpace(c)
    ensures Strip(name + [c]) == name
  {
    var typed := name + [c];
    assert typed[0] == name[0];
    assert StripLeft(typed) == typed;
    assert typed[..|typed| - 1] == name;
  }

  /** A trailing no-break space is whitespace to `strip`, as to Python. */
  lemma NoBreakSpaceStripped()
    ensures Strip("Kitchen\U{00A0}") == "Kitchen"
  {
    TrailingSpaceStripped("Kitchen", '\U{00A0}');
    assert "Kitchen" + ['\U{00A0}'] == "Kitchen\U{00A0}";
  }
}
