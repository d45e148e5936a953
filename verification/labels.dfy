/** The three token makers of the text encoder: `labeled_text_value`,
    `labeled_floating_text_value` and `labeled_binned_pct_text_value`.
    Each joins a stat name and a value with `_` and lower-cases the
    result. */
module Labels {
  import opened Wrappers
  import opened Text

  /** No whitespace at either end. */
  predicate Trimmed(s: string) {
    |s| > 0 ==> !IsSpace(s[0]) && !IsSpace(s[|s| - 1])
  }

  /** `s + "_" + t` is left alone by `strip` when `s` is already stripped
      and `t` is non-empty with no whitespace at its end. */
  lemma StripJoined(s: string, t: string)
    requires Trimmed(s) && |t| > 0 && !IsSpace(t[|t| - 1])
    ensures Strip(s + "_" + t) == s + "_" + t
  {
    StripNoOp(s + "_" + t);
  }

  /** Text with no upper-case ASCII letter and no whitespace at its end:
      what `lower` and `strip` leave alone at the end of a label. */
  predicate PlainTail(t: string) {
    && |t| > 0
    && !IsSpace(t[|t| - 1])
    && forall i :: 0 <= i < |t| ==> !('A' <= t[i] <= 'Z')
  }

  /** The final `strip().lower()` of a label `f'{s}_{t}'` with `s` the
      stripped stat lower-cases the stat and leaves the plain tail alone. */
  lemma JoinedLabel(stat: string, t: string)
    requires PlainTail(t)
    ensures Lower(Strip(Strip(stat) + "_" + t)) == Lower(Strip(stat)) + "_" + t
  {
    var s := Strip(stat);
    var joined := s + "_" + t;
    StripEnds(stat);
    StripJoined(s, t);
    assert Strip(joined) == joined;
    LowerAppend(s + "_", t);
    LowerUnderscore(s);
    LowerNoUpper(t);
    assert Lower(joined) == Lower(s) + "_" + t;
  }

  /** Lower-casing leaves the separator alone. */
  lemma LowerUnderscore(s: string)
    ensures Lower(s + "_") == Lower(s) + "_"
  {
    LowerAppend(s, "_");
    LowerNoUpper("_");
  }

  /** A rendered integer is a plain tail. */
  lemma IntToStringPlainTail(n: int)
    ensures PlainTail(IntToString(n))
  {
    IntToStringPlain(n);
  }

  /** `labeled_text_value(stat, value)`. */
  function TextLabel(stat: string, value: string): string {
    Lower(Strip(stat) + "_" + Strip(value))
  }

  /** A text label is the stripped stat, `_`, and the stripped value, each
      lower-cased, the separator sitting right after the stat. */
  lemma TextLabelShape(stat: string, value: string)
    ensures var r := TextLabel(stat, value);
      && |r| == |Strip(stat)| + 1 + |Strip(value)|
      && r[..|Strip(stat)|] == Lower(Strip(stat))
      && r[|Strip(stat)|] == '_'
      && r[|Strip(stat)| + 1..] == Lower(Strip(value))
  {
    LowerAppend(Strip(stat) + "_", Strip(value));
    LowerAppend(Strip(stat), "_");
  }

  /** A text label has a space only where its stat or value has one. */
  lemma TextLabelNoSpace(stat: string, value: string)
    requires ' ' !in stat && ' ' !in value
    ensures ' ' !in TextLabel(stat, value)
  {
    StripKeepsAbsence(stat, ' ');
    StripKeepsAbsence(value, ' ');
    LowerKeepsSpaces(Strip(stat) + "_" + Strip(value));
    assert TextLabel(stat, value) == Lower(Strip(stat) + "_" + Strip(value));
  }

  /** `labeled_floating_text_value(stat, value, multiplier)`. */
  function FloatLabel(stat: string, value: real, multiplier: real): string {
    var s := Strip(stat);
    Lower(Strip(s + "_" + IntToString(RoundHalfEven(value * multiplier))))
  }

  /** A floating label is the lower-cased stat, `_`, and the value scaled
      by the multiplier and rounded half to even: the final strip and
      lower-casing leave the number alone. */
  lemma FloatLabelShape(stat: string, value: real, multiplier: real)
    ensures FloatLabel(stat, value, multiplier) ==
              Lower(Strip(stat)) + "_" + IntToString(RoundHalfEven(value * multiplier))
  {
    IntToStringPlainTail(RoundHalfEven(value * multiplier));
    JoinedLabel(stat, IntToString(RoundHalfEven(value * multiplier)));
  }

  /** A floating label of a plain stat name is that name, `_`, and the
      digits of the rounded scaled value. */
  lemma FloatLabelOf(stat: string, value: real, multiplier: real, n: int)
    requires RoundHalfEven(value * multiplier) == n
    requires PlainName(stat)
    ensures FloatLabel(stat, value, multiplier) == stat + "_" + IntToString(n)
  {
    FloatLabelShape(stat, value, multiplier);
    PlainStat(stat);
  }

  /** The tier name the bin loop leaves after visiting tiers `0..n-1`:
      each tier not above the value overwrites it, starting from `?`. */
  function ScanTier(value: int, n: nat): (r: string)
    ensures r == "?" <==> value < 0 || n == 0
  {
    if n == 0 then "?"
    else if value >= n - 1 then IntToString(n - 1)
    else ScanTier(value, n - 1)
  }

  /** The tier in closed form: `?` for a negative value or no tiers, else
      the value clamped to the last tier. */
  function TierName(value: int, n: nat): string {
    if value < 0 || n == 0 then "?"
    else if value < n - 1 then IntToString(value)
    else IntToString(n - 1)
  }

  /** The loop computes the closed form. */
  lemma {:induction false} ScanTierClosedForm(value: int, n: nat)
    ensures ScanTier(value, n) == TierName(value, n)
  {
    if n > 0 && value < n - 1 {
      ScanTierClosedForm(value, n - 1);
    }
  }

  /** Number of tiers for a bin factor: `range(bin_factor - 1)`. */
  function TierCount(binFactor: int): nat {
    if binFactor - 1 > 0 then binFactor - 1 else 0
  }

  /** `labeled_binned_pct_text_value(values, stat, bin_factor)`. */
  function BinnedLabel(values: map<string, real>, stat: string, binFactor: int): string {
    var s := Strip(stat);
    if stat !in values then ""
    else
      var v := RoundHalfEven(values[stat] * binFactor as real);
      Lower(Strip(s + "_" + ScanTier(v, TierCount(binFactor))))
  }

  /** A binned label is empty when the stat is missing; otherwise the
      lower-cased stat, `_`, and the closed-form tier of the rounded
      `value * bin_factor` over `bin_factor - 1` tiers. */
  lemma BinnedLabelValue(values: map<string, real>, stat: string, binFactor: int)
    ensures stat !in values ==> BinnedLabel(values, stat, binFactor) == ""
    ensures stat in values ==>
      BinnedLabel(values, stat, binFactor) ==
        Lower(Strip(stat)) + "_" + TierName(RoundHalfEven(values[stat] * binFactor as real), TierCount(binFactor))
  {
    if stat in values {
      var v := RoundHalfEven(values[stat] * binFactor as real);
      ScanTierClosedForm(v, TierCount(binFactor));
      BinnedLabelShape(Strip(stat), stat, v, TierCount(binFactor));
    }
  }

  /** The tiers of a binned label: `?` for a negative rounded value (or a
      bin factor below 2), otherwise the rounded value clamped into
      `0..bin_factor-2`, which reads back as that number. */
  lemma BinnedTier(value: int, binFactor: int)
    ensures value < 0 || binFactor <= 1 ==> TierName(value, TierCount(binFactor)) == "?"
    ensures value >= 0 && binFactor >= 2 ==>
      var t := if value <= binFactor - 2 then value else binFactor - 2;
      && 0 <= t <= binFactor - 2
      && TierName(value, TierCount(binFactor)) == IntToString(t)
      && ParseInt(TierName(value, TierCount(binFactor))) == Some(t)
  {
    if value >= 0 && binFactor >= 2 {
      ParseIntOfIntToString(if value <= binFactor - 2 then value else binFactor - 2);
    }
  }

  /** A tier name is `?` or a rendered integer, so a plain tail. */
  lemma TierNamePlain(v: int, n: nat)
    ensures PlainTail(TierName(v, n))
  {
    if !(v < 0 || n == 0) {
      IntToStringPlainTail(if v < n - 1 then v else n - 1);
    }
  }

  /** The label assembled from an already stripped stat and a tier name. */
  lemma BinnedLabelShape(s: string, stat: string, v: int, n: nat)
    requires s == Strip(stat)
    ensures Lower(Strip(s + "_" + TierName(v, n))) == Lower(s) + "_" + TierName(v, n)
  {
    TierNamePlain(v, n);
    JoinedLabel(stat, TierName(v, n));
  }

  /** A tier name has no space. */
  lemma TierNameNoSpace(v: int, n: nat)
    ensures ' ' !in TierName(v, n)
  {
    if !(v < 0 || n == 0) {
      IntToStringHasNoSpace(if v < n - 1 then v else n - 1);
    }
  }

  /** A binned label is empty or a space-free stat with a space-free tier. */
  lemma BinnedLabelNoSpace(values: map<string, real>, stat: string, binFactor: int)
    requires ' ' !in stat
    ensures ' ' !in BinnedLabel(values, stat, binFactor)
  {
    BinnedLabelValue(values, stat, binFactor);
    if stat in values {
      StripKeepsAbsence(stat, ' ');
      LowerKeepsSpaces(Strip(stat));
      TierNameNoSpace(RoundHalfEven(values[stat] * binFactor as real), TierCount(binFactor));
    }
  }

  /** A floating label has no space when its stat has none. */
  lemma FloatLabelNoSpace(stat: string, value: real, multiplier: real)
    requires ' ' !in stat
    ensures ' ' !in FloatLabel(stat, value, multiplier)
  {
    FloatLabelShape(stat, value, multiplier);
    StripKeepsAbsence(stat, ' ');
    LowerKeepsSpaces(Strip(stat));
    IntToStringHasNoSpace(RoundHalfEven(value * multiplier));
  }

  /** A stat name with no whitespace and no upper-case ASCII letter. */
  predicate PlainName(stat: string) {
    forall i :: 0 <= i < |stat| ==> !IsSpace(stat[i]) && !('A' <= stat[i] <= 'Z')
  }

  /** A plain stat name is used as is. */
  lemma PlainStat(stat: string)
    requires PlainName(stat)
    ensures Lower(Strip(stat)) == stat
  {
    StripNoOp(stat);
    LowerNoUpper(stat);
  }

  /** A binned label whose rounded value lies within the tiers names
      that value. */
  lemma BinnedLabelInRange(rates: map<string, real>, stat: string, binFactor: int, n: int)
    requires stat in rates && RoundHalfEven(rates[stat] * binFactor as real) == n
    requires 0 <= n <= binFactor - 2
    requires PlainName(stat)
    ensures BinnedLabel(rates, stat, binFactor) == stat + "_" + IntToString(n)
  {
    BinnedLabelValue(rates, stat, binFactor);
    PlainLabelParts(stat, n, binFactor);
  }

  /** The parts of such a label: the stat as is and the value's digits. */
  lemma PlainLabelParts(stat: string, n: int, binFactor: int)
    requires 0 <= n <= binFactor - 2
    requires PlainName(stat)
    ensures Lower(Strip(stat)) + "_" + TierName(n, TierCount(binFactor)) == stat + "_" + IntToString(n)
  {
    assert TierName(n, TierCount(binFactor)) == IntToString(n);
    PlainStat(stat);
  }

  /** The stat names and numbers of the worked examples below. */
  lemma ExampleNames()
    ensures PlainName("era") && PlainName("batting_avg") && PlainName("so_pct")
  {
  }

  lemma ExampleLabels()
    ensures "era" + "_" + "4273" == "era_4273"
    ensures "batting_avg" + "_" + "300" == "batting_avg_300"
    ensures "so_pct" + "_" + "23" == "so_pct_23"
  {
  }

  lemma ExampleNumbers()
    ensures IntToString(4273) == "4273" && IntToString(300) == "300" && IntToString(23) == "23"
  {
  }

  /** The worked example of `labeled_floating_text_value`: an ERA of
      4.27299703264095 with multiplier 1000 gives `era_4273`. */
  lemma EraExample(stat: string, era: real)
    requires stat == "era" && era == 4.27299703264095
    ensures FloatLabel(stat, era, 1000.0) == "era_4273"
  {
    RoundHalfEvenUnique(era * 1000.0, 4273);
    ExampleNames();
    ExampleNumbers();
    ExampleLabels();
    FloatLabelOf(stat, era, 1000.0, 4273);
  }

  /** A worked example of `labeled_binned_pct_text_value`: a batting
      average of 0.30 with bin factor 1000 is rounded to 300, which lies
      below the top tier 998 and so names its own tier. */
  lemma BattingAverageExample(rates: map<string, real>)
    requires rates == map["batting_avg" := 0.30]
    ensures BinnedLabel(rates, "batting_avg", 1000) == "batting_avg_300"
  {
    RoundHalfEvenUnique(0.30 * 1000.0, 300);
    ExampleNames();
    ExampleNumbers();
    ExampleLabels();
    BinnedLabelInRange(rates, "batting_avg", 1000, 300);
  }

  /** The worked example of `labeled_binned_pct_text_value`: a strike-out
      rate of 0.22576361221779548 with bin factor 100 gives `so_pct_23`. */
  lemma StrikeoutExample(rates: map<string, real>, x: real)
    requires x == 0.22576361221779548 && rates == map["so_pct" := x]
    ensures BinnedLabel(rates, "so_pct", 100) == "so_pct_23"
  {
    RoundHalfEvenUnique(x * 100.0, 23);
    ExampleNames();
    ExampleNumbers();
    ExampleLabels();
    BinnedLabelInRange(rates, "so_pct", 100, 23);
  }
}
