/** The rolling-stock classifier of the bot: which tram class a fleet number
    (the feed's `ID`, a string) belongs to, and which subtype a live listing shows.

    Each class predicate parses the label with Python's `int()` and tests a fixed
    range; a label that does not parse belongs to no class. The K2 predicate is
    modelled as written: it returns `1080 or 1123 or 1018`, which Python evaluates
    to the truthy value 1080 whatever the number is. */
module Classifier {
  import opened Wrappers

  predicate IsDigitChar(c: char)
  {
    '0' <= c <= '9'
  }

  /** `s.isdigit()`, for ASCII text: non-empty and decimal digits only. */
  predicate IsDigits(s: string)
  {
    |s| > 0 && forall i :: 0 <= i < |s| ==> IsDigitChar(s[i])
  }

  /** The value of a run of decimal digits; leading zeros are allowed, as `int()` allows them. */
  function DigitsValue(s: string): nat
    requires forall i :: 0 <= i < |s| ==> IsDigitChar(s[i])
  {
    if |s| == 0 then 0
    else DigitsValue(s[..|s| - 1]) * 10 + DigitValue(s[|s| - 1])
  }

  function DigitValue(c: char): nat
    requires IsDigitChar(c)
  {
    c as int - '0' as int
  }

  /** `int(s)`: an optional sign followed by decimal digits; `None` where Python raises `ValueError`. */
  function ParseInt(s: string): (r: Option<int>)
    ensures |s| == 0 ==> r.None?
    ensures IsDigits(s) ==> r.Some? && r.value >= 0
    ensures r.Some? && r.value < 0 ==> s[0] == '-'
  {
    if IsDigits(s) then Some(DigitsValue(s))
    else if |s| >= 2 && (s[0] == '+' || s[0] == '-') && IsDigits(s[1..]) then
      var v: int := DigitsValue(s[1..]);
      Some(if s[0] == '-' then -v else v)
    else None
  }

  /** `str(n)` for a non-negative number. */
  function Digits(n: nat): (r: string)
    ensures IsDigits(r)
  {
    if n < 10 then [('0' as int + n) as char]
    else Digits(n / 10) + [('0' as int + n % 10) as char]
  }

  /** `str(n)` */
  function Decimal(n: int): string
  {
    if n < 0 then "-" + Digits(-n) else Digits(n)
  }

  /** Reading back the digits of a number gives the number. */
  lemma {:induction false} DigitsValueOfDigits(n: nat)
    ensures DigitsValue(Digits(n)) == n
    decreases n
  {
    if n >= 10 {
      DigitsValueOfDigits(n / 10);
      var d := Digits(n / 10);
      var c := ('0' as int + n % 10) as char;
      assert (d + [c])[..|d|] == d;
    }
  }

  /** `int(str(n)) == n` */
  lemma ParseDecimal(n: int)
    ensures ParseInt(Decimal(n)) == Some(n)
  {
    if n < 0 {
      DigitsValueOfDigits(-n);
      assert ("-" + Digits(-n))[1..] == Digits(-n);
    } else {
      DigitsValueOfDigits(n);
    }
  }

  function InRange(reg: string, lo: int, hi: int): bool
  {
    match ParseInt(reg)
    case None => false
    case Some(n) => lo <= n <= hi
  }

  /** `is_t6` */
  function IsT6(reg: string): (r: bool)
    ensures r <==> ParseInt(reg).Some? && 1200 <= ParseInt(reg).value <= 1299
  {
    InRange(reg, 1200, 1299)
  }

  /** `is_t2` */
  function IsT2(reg: string): (r: bool)
    ensures r <==> ParseInt(reg).Some? && 1425 <= ParseInt(reg).value <= 1426
  {
    InRange(reg, 1425, 1426)
  }

  /** `is_k3` */
  function IsK3(reg: string): (r: bool)
    ensures r <==> ParseInt(reg).Some? && 1750 <= ParseInt(reg).value <= 1753
  {
    InRange(reg, 1750, 1753)
  }

  /** `is_t3` */
  function IsT3(reg: string): (r: bool)
    ensures r <==> ParseInt(reg).Some? && 1500 <= ParseInt(reg).value <= 1699
  {
    InRange(reg, 1500, 1699)
  }

  /** `is_kt8` */
  function IsKT8(reg: string): (r: bool)
    ensures r <==> ParseInt(reg).Some? && 1700 <= ParseInt(reg).value <= 1749
  {
    InRange(reg, 1700, 1749)
  }

  /** The two kinds of Python value that the class predicates return. */
  datatype PyValue = PyBool(b: bool) | PyInt(i: int)
  {
    /** Python truthiness, as `if not ...` tests it. */
    predicate Truthy()
    {
      match this
      case PyBool(b) => b
      case PyInt(i) => i != 0
    }
  }

  /** Python's `a or b`: the first operand when it is truthy, else the second. */
  function PyOr(a: PyValue, b: PyValue): PyValue
  {
    if a.Truthy() then a else b
  }

  /** `is_k2`: parses the label, then returns `1080 or 1123 or 1018` without looking at it. */
  function IsK2(reg: string): (r: PyValue)
    ensures r.Truthy() <==> ParseInt(reg).Some?
    ensures r.Truthy() ==> r == PyInt(1080)
  {
    match ParseInt(reg)
    case None => PyBool(false)
    case Some(_) => PyOr(PyInt(1080), PyOr(PyInt(1123), PyInt(1018)))
  }

  /** The decimal rendering of `n` belongs to exactly the classes whose range holds `n`,
      and always counts as K2, through the truthy 1080. */
  lemma RangePredicates(n: int)
    ensures IsT6(Decimal(n)) <==> 1200 <= n <= 1299
    ensures IsT2(Decimal(n)) <==> 1425 <= n <= 1426
    ensures IsK3(Decimal(n)) <==> 1750 <= n <= 1753
    ensures IsT3(Decimal(n)) <==> 1500 <= n <= 1699
    ensures IsKT8(Decimal(n)) <==> 1700 <= n <= 1749
    ensures IsK2(Decimal(n)) == PyInt(1080)
  {
    ParseDecimal(n);
  }

  /** A label `int()` rejects belongs to no class, K2 included. */
  lemma UnparsableMatchesNothing(reg: string)
    requires ParseInt(reg).None?
    ensures !IsT6(reg) && !IsT2(reg) && !IsK3(reg) && !IsT3(reg) && !IsKT8(reg)
    ensures IsK2(reg) == PyBool(false)
  {
  }

  /** `is_k2` as written: truthy exactly when the label parses, and the same value
      for every parsable label, so the number never matters. */
  lemma IsK2IgnoresNumber(a: string, b: string)
    ensures IsK2(a).Truthy() <==> ParseInt(a).Some?
    ensures ParseInt(a).Some? && ParseInt(b).Some? ==> IsK2(a) == IsK2(b)
  {
  }

  /** The six classes, one per pair of commands. */
  datatype VehicleClass = T6 | T2 | K2 | K3 | T3 | KT8
  {
    /** The class test a command applies (`if not is_x(reg)`). */
    predicate Matches(reg: string)
    {
      match this
      case T6 => IsT6(reg)
      case T2 => IsT2(reg)
      case K2 => IsK2(reg).Truthy()
      case K3 => IsK3(reg)
      case T3 => IsT3(reg)
      case KT8 => IsKT8(reg)
    }

    /** The class name the replies show. */
    function Name(): string
    {
      match this
      case T6 => "T6A5"
      case T2 => "T2"
      case K2 => "K2"
      case K3 => "K3R-N"
      case T3 => "T3"
      case KT8 => "KT8D"
    }
  }

  /** Whatever the class, a matching label is one `int()` accepts, so sorting by
      `int(label)` is defined for every listed vehicle. */
  lemma MatchesParses(c: VehicleClass, reg: string)
    requires c.Matches(reg)
    ensures ParseInt(reg).Some?
  {
  }

  /** Because of `is_k2`, every vehicle of every other class also counts as K2. */
  lemma EveryClassIsAlsoK2(c: VehicleClass, reg: string)
    requires c.Matches(reg)
    ensures K2.Matches(reg)
  {
  }

  /** `int(label) if label.isdigit() else 0`: the number the subtype tables look up. */
  function SubtypeNumber(tag: string): int
  {
    if IsDigits(tag) then DigitsValue(tag) else 0
  }

  /** The T3 subtype chain of the live T3 listing. Its fourth test is Python's chained
      comparison `num == 1661 <= num <= 1666`, that is `num == 1661 and 1661 <= num <= 1666`. */
  function T3Subtype(tag: string): string
  {
    T3SubtypeOf(SubtypeNumber(tag))
  }

  /** Every name the T3 chain can give. */
  const T3Names: set<string> := {"Tatra T3G", "Tatra T3R.PV", "Tatra T3P", "Tatra T3R", "Tatra T3R *nosztalgia*",
                                 "Tatra T3R.EV", "Tatra T3 *nosztalgia*", "T3 (ismeretlen)"}

  /** The T3 chain on the number: only 1661 is "Tatra T3R", and the fallback is never
      given to a number of the "Tatra T3R.PV" range. */
  function T3SubtypeOf(num: int): (r: string)
    ensures r in T3Names
    ensures r == "Tatra T3R" <==> num == 1661
    ensures r == "T3 (ismeretlen)" ==> !(1653 <= num <= 1658) && num != 1661
  {
    if num in [1604, 1606, 1607, 1608, 1611, 1613, 1614, 1619, 1631, 1634, 1639, 1640, 1651, 1652] then "Tatra T3G"
    else if num in [1517, 1558, 1561, 1603] || 1653 <= num <= 1658 then "Tatra T3R.PV"
    else if num in [1564, 1576, 1583, 1587, 1589, 1620, 1628, 1629] then "Tatra T3P"
    else if num == 1661 && 1661 <= num && num <= 1666 then "Tatra T3R"
    else if num == 1615 then "Tatra T3R *nosztalgia*"
    else if num in [1531, 1560, 1562, 1569] then "Tatra T3R.EV"
    else if num == 1525 then "Tatra T3 *nosztalgia*"
    else "T3 (ismeretlen)"
  }

  /** The K2 subtype chain of the live K2 listing. */
  function K2Subtype(tag: string): (r: string)
    ensures r in {"Tatra K2R-RT", "Tatra K2P", "Tatra K2YU *nosztalgia*"}
    ensures r == "Tatra K2R-RT" <==> SubtypeNumber(tag) == 1018
    ensures r == "Tatra K2P" <==> SubtypeNumber(tag) == 1080
  {
    var num := SubtypeNumber(tag);
    if num == 1018 then "Tatra K2R-RT"
    else if num == 1080 then "Tatra K2P"
    else "Tatra K2YU *nosztalgia*"
  }

  /** The KT8 subtype chain of the live KT8D listing. */
  function KT8Subtype(tag: string): (r: string)
    ensures r in {"Tatra KT8D5N", "Tatra KT8D5R.N2"}
    ensures r == "Tatra KT8D5N" <==> 1729 <= SubtypeNumber(tag) <= 1735
  {
    var num := SubtypeNumber(tag);
    if 1729 <= num <= 1735 then "Tatra KT8D5N" else "Tatra KT8D5R.N2"
  }

  /** One row of a subtype table: the numbers it lists, an inclusive range (empty when
      `lo > hi`), and the name it gives. */
  datatype SubtypeRule = SubtypeRule(listed: seq<int>, lo: int, hi: int, name: string)
  {
    predicate Covers(num: int)
    {
      num in listed || lo <= num <= hi
    }
  }

  /** Ordered table lookup from row `i` on: the name of the first row that covers `num`,
      else `fallback`. */
  function FirstMatch(rules: seq<SubtypeRule>, i: nat, num: int, fallback: string): (r: string)
    requires i <= |rules|
    ensures forall j :: i <= j < |rules| && rules[j].Covers(num) && (forall k :: i <= k < j ==> !rules[k].Covers(num)) ==> r == rules[j].name
    ensures (forall j :: i <= j < |rules| ==> !rules[j].Covers(num)) ==> r == fallback
    decreases |rules| - i
  {
    if i == |rules| then fallback
    else if rules[i].Covers(num) then rules[i].name
    else FirstMatch(rules, i + 1, num, fallback)
  }

  /** The T3 chain written as configuration data. The "Tatra T3R" row covers only
      1661, which is what the chained comparison selects. */
  const T3Rules: seq<SubtypeRule> := [
    SubtypeRule([1604, 1606, 1607, 1608, 1611, 1613, 1614, 1619, 1631, 1634, 1639, 1640, 1651, 1652], 1, 0, "Tatra T3G"),
    SubtypeRule([1517, 1558, 1561, 1603], 1653, 1658, "Tatra T3R.PV"),
    SubtypeRule([1564, 1576, 1583, 1587, 1589, 1620, 1628, 1629], 1, 0, "Tatra T3P"),
    SubtypeRule([1661], 1, 0, "Tatra T3R"),
    SubtypeRule([1615], 1, 0, "Tatra T3R *nosztalgia*"),
    SubtypeRule([1531, 1560, 1562, 1569], 1, 0, "Tatra T3R.EV"),
    SubtypeRule([1525], 1, 0, "Tatra T3 *nosztalgia*")
  ]

  /** The if/elif chain is the first-match lookup in the T3 table. */
  lemma T3SubtypeIsFirstMatch(tag: string)
    ensures T3Subtype(tag) == FirstMatch(T3Rules, 0, SubtypeNumber(tag), "T3 (ismeretlen)")
  {
    var num, fb := SubtypeNumber(tag), "T3 (ismeretlen)";
    if T3Rules[0].Covers(num) {
      assert T3SubtypeOf(num) == "Tatra T3G";
      assert FirstMatch(T3Rules, 0, num, fb) == "Tatra T3G";
    } else if T3Rules[1].Covers(num) {
      assert T3SubtypeOf(num) == "Tatra T3R.PV";
      assert FirstMatch(T3Rules, 1, num, fb) == "Tatra T3R.PV";
      assert FirstMatch(T3Rules, 0, num, fb) == FirstMatch(T3Rules, 1, num, fb);
    } else if T3Rules[2].Covers(num) {
      assert T3SubtypeOf(num) == "Tatra T3P";
      assert FirstMatch(T3Rules, 2, num, fb) == "Tatra T3P";
      assert FirstMatch(T3Rules, 1, num, fb) == FirstMatch(T3Rules, 2, num, fb);
      assert FirstMatch(T3Rules, 0, num, fb) == FirstMatch(T3Rules, 1, num, fb);
    } else if T3Rules[3].Covers(num) {
      assert T3SubtypeOf(num) == "Tatra T3R";
      assert FirstMatch(T3Rules, 3, num, fb) == "Tatra T3R";
      assert FirstMatch(T3Rules, 2, num, fb) == FirstMatch(T3Rules, 3, num, fb);
      assert FirstMatch(T3Rules, 1, num, fb) == FirstMatch(T3Rules, 2, num, fb);
      assert FirstMatch(T3Rules, 0, num, fb) == FirstMatch(T3Rules, 1, num, fb);
    } else if T3Rules[4].Covers(num) {
      assert T3SubtypeOf(num) == "Tatra T3R *nosztalgia*";
      assert FirstMatch(T3Rules, 4, num, fb) == "Tatra T3R *nosztalgia*";
      assert FirstMatch(T3Rules, 3, num, fb) == FirstMatch(T3Rules, 4, num, fb);
      assert FirstMatch(T3Rules, 2, num, fb) == FirstMatch(T3Rules, 3, num, fb);
      assert FirstMatch(T3Rules, 1, num, fb) == FirstMatch(T3Rules, 2, num, fb);
      assert FirstMatch(T3Rules, 0, num, fb) == FirstMatch(T3Rules, 1, num, fb);
    } else if T3Rules[5].Covers(num) {
      assert T3SubtypeOf(num) == "Tatra T3R.EV";
      assert FirstMatch(T3Rules, 5, num, fb) == "Tatra T3R.EV";
      assert FirstMatch(T3Rules, 4, num, fb) == FirstMatch(T3Rules, 5, num, fb);
      assert FirstMatch(T3Rules, 3, num, fb) == FirstMatch(T3Rules, 4, num, fb);
      assert FirstMatch(T3Rules, 2, num, fb) == FirstMatch(T3Rules, 3, num, fb);
      assert FirstMatch(T3Rules, 1, num, fb) == FirstMatch(T3Rules, 2, num, fb);
      assert FirstMatch(T3Rules, 0, num, fb) == FirstMatch(T3Rules, 1, num, fb);
    } else if T3Rules[6].Covers(num) {
      assert T3SubtypeOf(num) == "Tatra T3 *nosztalgia*";
      assert FirstMatch(T3Rules, 6, num, fb) == "Tatra T3 *nosztalgia*";
      assert FirstMatch(T3Rules, 5, num, fb) == FirstMatch(T3Rules, 6, num, fb);
      assert FirstMatch(T3Rules, 4, num, fb) == FirstMatch(T3Rules, 5, num, fb);
      assert FirstMatch(T3Rules, 3, num, fb) == FirstMatch(T3Rules, 4, num, fb);
      assert FirstMatch(T3Rules, 2, num, fb) == FirstMatch(T3Rules, 3, num, fb);
      assert FirstMatch(T3Rules, 1, num, fb) == FirstMatch(T3Rules, 2, num, fb);
      assert FirstMatch(T3Rules, 0, num, fb) == FirstMatch(T3Rules, 1, num, fb);
    } else {
      assert T3SubtypeOf(num) == fb;
      assert FirstMatch(T3Rules, 7, num, fb) == fb;
      assert FirstMatch(T3Rules, 6, num, fb) == FirstMatch(T3Rules, 7, num, fb);
      assert FirstMatch(T3Rules, 5, num, fb) == FirstMatch(T3Rules, 6, num, fb);
      assert FirstMatch(T3Rules, 4, num, fb) == FirstMatch(T3Rules, 5, num, fb);
      assert FirstMatch(T3Rules, 3, num, fb) == FirstMatch(T3Rules, 4, num, fb);
      assert FirstMatch(T3Rules, 2, num, fb) == FirstMatch(T3Rules, 3, num, fb);
      assert FirstMatch(T3Rules, 1, num, fb) == FirstMatch(T3Rules, 2, num, fb);
      assert FirstMatch(T3Rules, 0, num, fb) == FirstMatch(T3Rules, 1, num, fb);
    }
  }

  /** Of the numbers 1661..1666 that the chained comparison seems to describe, only 1661
      is labelled "Tatra T3R"; the others fall through to the fallback. */
  lemma T3ROnly1661(n: nat)
    requires 1661 <= n <= 1666
    ensures T3Subtype(Digits(n)) == "Tatra T3R" <==> n == 1661
    ensures n != 1661 ==> T3Subtype(Digits(n)) == "T3 (ismeretlen)"
  {
    DigitsValueOfDigits(n);
  }

  /** A label that is not all digits (a signed one, say) gets number 0 and the fallback
      label, although `is_t3` accepts it when its value lies in 1500..1699. */
  lemma SignedT3LabelIsUnknown(n: nat)
    requires 1500 <= n <= 1699
    ensures IsT3("+" + Digits(n))
    ensures T3Subtype("+" + Digits(n)) == "T3 (ismeretlen)"
  {
    DigitsValueOfDigits(n);
    assert ("+" + Digits(n))[1..] == Digits(n);
    assert ("+" + Digits(n))[0] == '+' && !IsDigits("+" + Digits(n));
    assert SubtypeNumber("+" + Digits(n)) == 0;
  }

  /** "Tatra KT8D5N" is given exactly to 1729..1735. */
  lemma KT8D5NExactly(n: nat)
    ensures KT8Subtype(Digits(n)) == "Tatra KT8D5N" <==> 1729 <= n <= 1735
  {
    DigitsValueOfDigits(n);
  }

  /** 1018 and 1080 have their own K2 labels; every other number gets the nostalgia label. */
  lemma K2SubtypeOfNumber(n: nat)
    ensures K2Subtype(Digits(n)) == (if n == 1018 then "Tatra K2R-RT"
                                    else if n == 1080 then "Tatra K2P"
                                    else "Tatra K2YU *nosztalgia*")
  {
    DigitsValueOfDigits(n);
  }
}
