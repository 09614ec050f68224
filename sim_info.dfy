// `CallLogUtil.getSimInfo`: the SIM label shown for a call, chosen from the
// active subscriptions by the subscription id the call's phone account
// names. The subscription service is a parameter: it either throws, has no
// list, or lists the active subscriptions.
module SimInfo {
  import opened Wrappers
  import opened Seqs
  import opened Text
  import Int32

  const UNKNOWN_SIM: string := "未知SIM卡"

  /** The fields of a `SubscriptionInfo` the label reads. */
  datatype Subscription = Subscription(
    subscriptionId: int,
    displayName: Option<string>,
    carrierName: Option<string>,
    simSlotIndex: int)

  function SubscriptionIdOf(s: Subscription): int { s.subscriptionId }

  /** What `activeSubscriptionInfoList` produces. */
  datatype Subscriptions = Threw | NoList | Active(infos: seq<Subscription>)

  /** The zero of the run of ten decimal digits that holds `c`, or -1 when
    * there is none. The runs are those of Unicode 15.0, category Nd, in the
    * Basic Multilingual Plane, where a Kotlin `Char` lives. */
  function DigitZero(c: char): (z: int)
    ensures z == -1 || z <= c as int < z + 10
  {
    var n := c as int;
    if 0x0030 <= n < 0x003A then 0x0030
    else if 0x0660 <= n < 0x066A then 0x0660
    else if 0x06F0 <= n < 0x06FA then 0x06F0
    else if 0x07C0 <= n < 0x07CA then 0x07C0
    else if 0x0966 <= n < 0x0970 then 0x0966
    else if 0x09E6 <= n < 0x09F0 then 0x09E6
    else if 0x0A66 <= n < 0x0A70 then 0x0A66
    else if 0x0AE6 <= n < 0x0AF0 then 0x0AE6
    else if 0x0B66 <= n < 0x0B70 then 0x0B66
    else if 0x0BE6 <= n < 0x0BF0 then 0x0BE6
    else if 0x0C66 <= n < 0x0C70 then 0x0C66
    else if 0x0CE6 <= n < 0x0CF0 then 0x0CE6
    else if 0x0D66 <= n < 0x0D70 then 0x0D66
    else if 0x0DE6 <= n < 0x0DF0 then 0x0DE6
    else if 0x0E50 <= n < 0x0E5A then 0x0E50
    else if 0x0ED0 <= n < 0x0EDA then 0x0ED0
    else if 0x0F20 <= n < 0x0F2A then 0x0F20
    else if 0x1040 <= n < 0x104A then 0x1040
    else if 0x1090 <= n < 0x109A then 0x1090
    else if 0x17E0 <= n < 0x17EA then 0x17E0
    else if 0x1810 <= n < 0x181A then 0x1810
    else if 0x1946 <= n < 0x1950 then 0x1946
    else if 0x19D0 <= n < 0x19DA then 0x19D0
    else if 0x1A80 <= n < 0x1A8A then 0x1A80
    else if 0x1A90 <= n < 0x1A9A then 0x1A90
    else if 0x1B50 <= n < 0x1B5A then 0x1B50
    else if 0x1BB0 <= n < 0x1BBA then 0x1BB0
    else if 0x1C40 <= n < 0x1C4A then 0x1C40
    else if 0x1C50 <= n < 0x1C5A then 0x1C50
    else if 0xA620 <= n < 0xA62A then 0xA620
    else if 0xA8D0 <= n < 0xA8DA then 0xA8D0
    else if 0xA900 <= n < 0xA90A then 0xA900
    else if 0xA9D0 <= n < 0xA9DA then 0xA9D0
    else if 0xA9F0 <= n < 0xA9FA then 0xA9F0
    else if 0xAA50 <= n < 0xAA5A then 0xAA50
    else if 0xABF0 <= n < 0xABFA then 0xABF0
    else if 0xFF10 <= n < 0xFF1A then 0xFF10
    else -1
  }

  /** Kotlin's `Char.isDigit`. */
  predicate IsKotlinDigit(c: char) { DigitZero(c) != -1 }

  predicate AllKotlinDigits(s: string) { forall i :: 0 <= i < |s| ==> IsKotlinDigit(s[i]) }

  /** What `toIntOrNull` reads from a string of digits, before its range
    * check: most significant first, each digit as its offset from its run's
    * zero. */
  function KotlinDigitsValue(s: string): nat
    requires AllKotlinDigits(s)
  {
    if s == [] then 0 else 10 * KotlinDigitsValue(s[..|s| - 1]) + (s[|s| - 1] as int - DigitZero(s[|s| - 1]))
  }

  /** `phoneAccountId.filter { it.isDigit() }.toIntOrNull()`: the digits of
    * the account id read as one number, or nothing when there are no digits
    * or the number does not fit in an `Int`. */
  function SubId(phoneAccountId: string): (r: Option<int>)
    ensures r.Some? ==> 0 <= r.value <= Int32.MAX
  {
    var digits := Filter(phoneAccountId, IsKotlinDigit);
    assert AllKotlinDigits(digits);
    if digits == [] || KotlinDigitsValue(digits) > Int32.MAX then None
    else Some(KotlinDigitsValue(digits))
  }

  /** The ASCII digits are Kotlin digits, read with their usual values. */
  lemma {:induction false} AsciiDigitsValue(s: string)
    requires AllDigits(s)
    ensures AllKotlinDigits(s) && KotlinDigitsValue(s) == DigitsValue(s)
  {
    if s != [] {
      AsciiDigitsValue(s[..|s| - 1]);
    }
  }

  /** Digits of other scripts count too: an account id ending in the
    * Arabic-Indic digits one and two names sub id 12. */
  lemma ArabicIndicSubId()
    ensures SubId("sim\U{0661}\U{0662}") == Some(12)
  {
    var s := "sim\U{0661}\U{0662}";
    assert Filter(s, IsKotlinDigit) == "\U{0661}\U{0662}";
    assert "\U{0661}\U{0662}"[..1] == "\U{0661}";
    assert "\U{0661}"[..0] == "";
    assert KotlinDigitsValue("\U{0661}") == 1;
    assert KotlinDigitsValue("\U{0661}\U{0662}") == 12;
  }

  predicate NonEmpty(s: Option<string>) { s.Some? && s.value != [] }

  /** The label of a matching subscription: its display name, else its
    * carrier name, else "SIM" and the one-based slot number. */
  function Label(info: Subscription): string
  {
    if NonEmpty(info.displayName) then info.displayName.value
    else if NonEmpty(info.carrierName) then info.carrierName.value
    else "SIM" + IntToDecimal(Int32.Wrap(info.simSlotIndex + 1))
  }

  /** The label `getSimInfo` returns: that of the first active subscription
    * whose id is the account's sub id, and "未知SIM卡" when the account id is
    * null, the service throws or has no list, the id has no digits, or no
    * subscription matches. */
  function SimLabel(phoneAccountId: Option<string>, subs: Subscriptions): string
  {
    if phoneAccountId.None? || !subs.Active? then UNKNOWN_SIM
    else
      var id := SubId(phoneAccountId.value);
      if id.None? then UNKNOWN_SIM
      else
        var i := IndexOfKey(subs.infos, SubscriptionIdOf, id.value);
        if i == -1 then UNKNOWN_SIM else Label(subs.infos[i])
  }

  /** `getSimInfo`: the `for` loop with its early returns. */
  method GetSimInfo(phoneAccountId: Option<string>, subs: Subscriptions) returns (r: string)
    ensures r == SimLabel(phoneAccountId, subs)
  {
    if phoneAccountId.None? {
      return UNKNOWN_SIM;
    }
    if !subs.Active? {
      return UNKNOWN_SIM;
    }
    var list := subs.infos;
    var subId := SubId(phoneAccountId.value);
    var k := 0;
    while k < |list|
      invariant 0 <= k <= |list|
      invariant subId.Some? ==> forall j :: 0 <= j < k ==> list[j].subscriptionId != subId.value
    {
      if subId.Some? && subId.value == list[k].subscriptionId {
        return Label(list[k]);
      }
      k := k + 1;
    }
    return UNKNOWN_SIM;
  }

  /** The label is the one of a subscription the account names, exactly when
    * such a subscription is active; it is "未知SIM卡" otherwise. */
  lemma SimLabelChoice(phoneAccountId: Option<string>, subs: Subscriptions)
    ensures var r := SimLabel(phoneAccountId, subs);
      var matches := phoneAccountId.Some? && subs.Active? && SubId(phoneAccountId.value).Some?
        && exists i :: 0 <= i < |subs.infos| && subs.infos[i].subscriptionId == SubId(phoneAccountId.value).value;
      && (!matches ==> r == UNKNOWN_SIM)
      && (matches ==> exists i :: (0 <= i < |subs.infos|
            && subs.infos[i].subscriptionId == SubId(phoneAccountId.value).value
            && r == Label(subs.infos[i])
            && forall j :: 0 <= j < i ==> subs.infos[j].subscriptionId != subs.infos[i].subscriptionId))
  {
    if phoneAccountId.Some? && subs.Active? && SubId(phoneAccountId.value).Some? {
      var id := SubId(phoneAccountId.value).value;
      var i := IndexOfKey(subs.infos, SubscriptionIdOf, id);
      if i != -1 {
        assert subs.infos[i].subscriptionId == id;
      }
    }
  }

  /** An account id that is the decimal text of an `Int` sub id names it. */
  lemma SubIdOfDecimal(n: nat)
    requires n <= Int32.MAX
    ensures SubId(IntToDecimal(n)) == Some(n)
  {
    var d := NatToDecimal(n);
    AsciiDigitsValue(d);
    FilterAll(d, IsKotlinDigit);
    NatToDecimalValue(n);
  }

  /** The digits are gathered wherever they stand: non-digit characters in
    * between are skipped. */
  lemma SubIdSkipsOthers(prefix: string, n: nat)
    requires n <= Int32.MAX
    requires forall i :: 0 <= i < |prefix| ==> !IsKotlinDigit(prefix[i])
    ensures SubId(prefix + IntToDecimal(n)) == Some(n)
  {
    var d := NatToDecimal(n);
    FilterConcat(prefix, d, IsKotlinDigit);
    FilterNoneOf(prefix);
    assert Filter(prefix, IsKotlinDigit) + Filter(d, IsKotlinDigit) == Filter(d, IsKotlinDigit);
    SubIdOfDecimal(n);
  }

  lemma {:induction false} FilterNoneOf(s: string)
    requires forall i :: 0 <= i < |s| ==> !IsKotlinDigit(s[i])
    ensures Filter(s, IsKotlinDigit) == []
  {
    if s != [] {
      FilterNoneOf(s[1..]);
    }
  }

  /** Without a display or carrier name, slot 0 is labelled "SIM1". */
  lemma FirstSlotLabel(info: Subscription)
    requires !NonEmpty(info.displayName) && !NonEmpty(info.carrierName) && info.simSlotIndex == 0
    ensures Label(info) == "SIM1"
  {
    assert NatToDecimal(1) == "1";
  }
}
