/** The decimal-field labels that name sessions and rollout groups. */
module Labels {
  const DIGITS := "0123456789"

  function Decimal(n: nat): (s: string)
    ensures |s| >= 1 && forall i :: 0 <= i < |s| ==> s[i] in DIGITS
  {
    if n < 10 then [DIGITS[n]] else Decimal(n / 10) + [DIGITS[n % 10]]
  }

  /** The number a numeral stands for. */
  function Value(s: string): int {
    if s == "" then 0 else 10 * Value(s[..|s| - 1]) + (s[|s| - 1] as int - '0' as int)
  }

  lemma DigitValue(n: nat)
    requires n < 10
    ensures DIGITS[n] as int - '0' as int == n
  {
  }

  /** Reading a numeral back gives the number; it has no leading zero. */
  lemma {:induction false} DecimalValue(n: nat)
    ensures Value(Decimal(n)) == n
    ensures n > 0 ==> Decimal(n)[0] != '0'
  {
    DigitValue(n % 10);
    if n < 10 {
      assert Decimal(n)[..0] == "";
    } else {
      DecimalValue(n / 10);
      assert Decimal(n)[..|Decimal(n)| - 1] == Decimal(n / 10);
    }
  }

  lemma DigitsDiffer(a: nat, b: nat)
    requires a < 10 && b < 10 && DIGITS[a] == DIGITS[b]
    ensures a == b
  {
  }

  lemma {:induction false} DecimalInjective(m: nat, n: nat)
    requires Decimal(m) == Decimal(n)
    ensures m == n
  {
    var s, t := Decimal(m), Decimal(n);
    assert s[|s| - 1] == DIGITS[m % 10] && t[|t| - 1] == DIGITS[n % 10];
    DigitsDiffer(m % 10, n % 10);
    if m >= 10 && n >= 10 {
      assert s[..|s| - 1] == Decimal(m / 10) && t[..|t| - 1] == Decimal(n / 10);
      DecimalInjective(m / 10, n / 10);
    }
  }

  /** A field without separators at the front of a label is determined by the label. */
  lemma LeadingField(a: string, x: string, b: string, y: string)
    requires ':' !in a && ':' !in b
    requires a + ":" + x == b + ":" + y
    ensures a == b && x == y
  {
    var s := a + ":" + x;
    assert s[|a|] == ':' && s[|b|] == ':';
    assert forall i :: 0 <= i < |a| ==> s[i] == a[i];
    assert forall i :: 0 <= i < |b| ==> s[i] == b[i];
    assert |a| == |b|;
    assert a == s[..|a|] && x == s[|a| + 1..] && y == s[|b| + 1..];
  }

  /** The same at the end of a label. */
  lemma TrailingField(x: string, a: string, y: string, b: string)
    requires ':' !in a && ':' !in b
    requires x + ":" + a == y + ":" + b
    ensures a == b && x == y
  {
    var s := x + ":" + a;
    assert |s| == |x| + 1 + |a| == |y| + 1 + |b|;
    assert s[|x|] == ':' && s[|y|] == ':';
    assert forall i :: |x| < i < |s| ==> s[i] == a[i - |x| - 1];
    assert forall i :: |y| < i < |s| ==> s[i] == b[i - |y| - 1];
    assert |x| == |y|;
    assert x == s[..|x|] && a == s[|x| + 1..] && b == s[|y| + 1..];
  }

  lemma TaggedDecimal(tag: char, m: nat, n: nat)
    requires [tag] + Decimal(m) == [tag] + Decimal(n)
    ensures m == n
  {
    assert ([tag] + Decimal(m))[1..] == Decimal(m) && ([tag] + Decimal(n))[1..] == Decimal(n);
    DecimalInjective(m, n);
  }

  /** The id given to a scheduled request. */
  function SessionId(conversationId: string, counter: nat, group: nat, item: nat): string {
    conversationId + ":" + "rollout" + ":" + Decimal(counter) + ":" + ("g" + Decimal(group)) + ":" +
        ("i" + Decimal(item))
  }

  /** No conversation id, however it is chosen, can make two scheduled requests share a session. */
  lemma SessionIdInjective(c: string, k: nat, g: nat, i: nat, c': string, k': nat, g': nat, i': nat)
    requires SessionId(c, k, g, i) == SessionId(c', k', g', i')
    ensures c == c' && k == k' && g == g' && i == i'
  {
    var (prefix, prefix') := (c + ":" + "rollout" + ":" + Decimal(k), c' + ":" + "rollout" + ":" + Decimal(k'));
    TrailingField(prefix + ":" + ("g" + Decimal(g)), "i" + Decimal(i), prefix' + ":" + ("g" + Decimal(g')),
        "i" + Decimal(i'));
    TrailingField(prefix, "g" + Decimal(g), prefix', "g" + Decimal(g'));
    TrailingField(c + ":" + "rollout", Decimal(k), c' + ":" + "rollout", Decimal(k'));
    TrailingField(c, "rollout", c', "rollout");
    DecimalInjective(k, k');
    TaggedDecimal('g', g, g');
    TaggedDecimal('i', i, i');
  }

  /** The id shared by the rollouts of one scheduled group. */
  function GroupId(step: nat, schedule: nat, group: nat, conversationId: string): string {
    "train" + ":" + (Decimal(step) + ":" +
        (("s" + Decimal(schedule)) + ":" + (("g" + Decimal(group)) + ":" + conversationId)))
  }

  /** Groups of different schedules or positions never share an id, even for the same conversation. */
  lemma GroupIdInjective(t: nat, s: nat, g: nat, c: string, t': nat, s': nat, g': nat, c': string)
    requires GroupId(t, s, g, c) == GroupId(t', s', g', c')
    ensures t == t' && s == s' && g == g' && c == c'
  {
    var (inner, inner') := (("g" + Decimal(g)) + ":" + c, ("g" + Decimal(g')) + ":" + c');
    var (middle, middle') := (("s" + Decimal(s)) + ":" + inner, ("s" + Decimal(s')) + ":" + inner');
    LeadingField("train", Decimal(t) + ":" + middle, "train", Decimal(t') + ":" + middle');
    LeadingField(Decimal(t), middle, Decimal(t'), middle');
    LeadingField("s" + Decimal(s), inner, "s" + Decimal(s'), inner');
    LeadingField("g" + Decimal(g), c, "g" + Decimal(g'), c');
    DecimalInjective(t, t');
    TaggedDecimal('s', s, s');
    TaggedDecimal('g', g, g');
  }

  lemma SomeNumerals()
    ensures Decimal(2) == "2" && Decimal(3) == "3" && Decimal(4) == "4" && Decimal(7) == "7"
    ensures Decimal(10) == "10" && Decimal(12) == "12"
  {
    assert Decimal(1) == "1";
    assert Decimal(12) == Decimal(1) + "2" && Decimal(10) == Decimal(1) + "0";
  }

  /** The two formats, spelled out on one label each. */
  lemma LabelExamples()
    ensures SessionId("conv", 12, 3, 4) == "conv:rollout:12:g3:i4"
    ensures GroupId(7, 2, 10, "conv") == "train:7:s2:g10:conv"
  {
    hide Decimal;
    SomeNumerals();
  }
}
