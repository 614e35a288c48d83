/** Reconciliation of an import with its control totals (core/imports/synthetic-csv-parser.ts). */
module ControlTotals {
  import opened Common
  import opened Decimal

  // ---------------------------------------------------------------- the texts

  /** hasControlCharacter. */
  predicate HasControlCharacter(text: string) {
    exists c | c in text :: c as int <= 0x1f || 0x7f <= c as int <= 0x9f
  }

  const SCALE := 100_000_000

  /** (?:0|[1-9][0-9]*)\.[0-9]{8}; the bound on the length of the whole part plays no part here. */
  predicate IsDecimal8(text: string) {
    var n := |text| - 9;
    n >= 1 && IsNumeral(text[..n]) && text[n] == '.' && IsDigits(text[n + 1..])
  }

  function SplitAt(text: string, separator: char): (i: nat)
    ensures i <= |text|
    ensures i < |text| ==> text[i] == separator
    ensures separator !in text[..i]
  {
    if text == "" || text[0] == separator then 0 else
    var i := 1 + SplitAt(text[1..], separator);
    assert text[..i] == [text[0]] + text[1..][..i - 1];
    i
  }

  /** parseScaledDecimal: what stands before the point and after it. */
  function ParseScaledDecimal(text: string): nat
    requires IsDecimal8(text)
  {
    var i := SplitAt(text, '.');
    PointPlace(text);
    Number(text[..i]) * SCALE + Number(text[i + 1..])
  }

  function ScaledDecimalText(value: nat): string {
    Numeral(value / SCALE) + "." + Padded(Numeral(value % SCALE), 8)
  }

  lemma {:induction false} SplitAtIs(text: string, separator: char, n: nat)
    requires n < |text| && text[n] == separator && separator !in text[..n]
    ensures SplitAt(text, separator) == n
  {
    if n > 0 {
      assert text[..n][0] != separator;
      assert text[1..][..n - 1] == text[..n][1..];
      SplitAtIs(text[1..], separator, n - 1);
    }
  }

  lemma PointPlace(text: string)
    requires IsDecimal8(text)
    ensures SplitAt(text, '.') == |text| - 9
  {
    assert !IsDigit('.');
    SplitAtIs(text, '.', |text| - 9);
  }

  lemma PowerOfScale()
    ensures Power10(8) == SCALE
  {
    assert Power10(4) == 10_000;
    assert Power10(8) == 10_000 * Power10(4);
  }

  lemma ParsingParts(whole: string, fraction: string)
    requires IsNumeral(whole) && IsDigits(fraction) && |fraction| == 8
    ensures var text := whole + "." + fraction;
            IsDecimal8(text) && ParseScaledDecimal(text) == Number(whole) * SCALE + Number(fraction)
  {
    var text := whole + "." + fraction;
    assert text[..|whole|] == whole && text[|whole| + 1..] == fraction && text[|whole|] == '.';
    PointPlace(text);
  }

  /** Reading the text of a scaled value gives it back. */
  lemma ScaledTextReads(value: nat)
    ensures IsDecimal8(ScaledDecimalText(value)) && ParseScaledDecimal(ScaledDecimalText(value)) == value
  {
    PowerOfScale();
    NumeralReads(value / SCALE);
    PaddedNumeral(value % SCALE, 8);
    FixedReads(value % SCALE, 8);
    ParsingParts(Numeral(value / SCALE), Padded(Numeral(value % SCALE), 8));
  }

  lemma ScaleDivides(whole: nat, fraction: nat)
    requires fraction < SCALE
    ensures (whole * SCALE + fraction) / SCALE == whole && (whole * SCALE + fraction) % SCALE == fraction
  {
  }

  lemma FractionReads(fraction: string)
    requires IsDigits(fraction) && |fraction| == 8
    ensures Number(fraction) < SCALE && Padded(Numeral(Number(fraction)), 8) == fraction
  {
    PowerOfScale();
    ReadingFixed(fraction);
    PaddedNumeral(Number(fraction), 8);
  }

  lemma WritingValue(value: nat, whole: nat, fraction: nat)
    requires value / SCALE == whole && value % SCALE == fraction
    ensures ScaledDecimalText(value) == Numeral(whole) + "." + Padded(Numeral(fraction), 8)
  {
  }

  /** And writing the value of a canonical text gives back the text. */
  lemma ReadingScaledText(text: string)
    requires IsDecimal8(text)
    ensures ScaledDecimalText(ParseScaledDecimal(text)) == text
  {
    var n := |text| - 9;
    var whole, fraction := text[..n], text[n + 1..];
    PointPlace(text);
    FractionReads(fraction);
    ReadingNumeral(whole);
    ScaleDivides(Number(whole), Number(fraction));
    WritingValue(ParseScaledDecimal(text), Number(whole), Number(fraction));
    assert text == whole + "." + fraction;
  }

  // ---------------------------------------------------------------- rows and totals

  datatype Group = Group(provider: string, serviceCode: string, region: string, month: string)

  /** A parsed usage row, as parseUsageRow leaves it. */
  datatype UsageRow = UsageRow(
    provider: string, serviceCode: string, region: string, usageStart: string,
    usageQuantity: string, onDemandCostCents: string, realizedCostCents: string, commitmentAppliedCents: string)

  datatype ControlTotal = ControlTotal(
    group: Group, lineCount: string,
    usageQuantity: string, onDemandCostCents: string, realizedCostCents: string, commitmentAppliedCents: string)

  datatype Total = Total(
    lineCount: nat, usageQuantity: nat, onDemandCostCents: nat, realizedCostCents: nat, commitmentAppliedCents: nat)

  const ZERO := Total(0, 0, 0, 0, 0)

  predicate ValidRow(row: UsageRow) {
    && !HasControlCharacter(row.provider) && !HasControlCharacter(row.serviceCode) && !HasControlCharacter(row.region)
    && IsDecimal8(row.usageQuantity)
    && IsNumeral(row.onDemandCostCents) && IsNumeral(row.realizedCostCents) && IsNumeral(row.commitmentAppliedCents)
  }

  /** What the request's validation has checked (core/imports/imports-input.ts). */
  predicate ValidExpected(total: ControlTotal) {
    && !HasControlCharacter(total.group.provider) && !HasControlCharacter(total.group.serviceCode)
    && !HasControlCharacter(total.group.region)
    && IsNumeral(total.lineCount) && IsDecimal8(total.usageQuantity)
    && IsNumeral(total.onDemandCostCents) && IsNumeral(total.realizedCostCents)
    && IsNumeral(total.commitmentAppliedCents)
  }

  function GroupOf(row: UsageRow): Group {
    Group(row.provider, row.serviceCode, row.region, row.usageStart[..Min(7, |row.usageStart|)])
  }

  const NUL := '\0'

  function TotalKey(group: Group): string {
    group.provider + [NUL] + group.serviceCode + [NUL] + group.region + [NUL] + group.month
  }

  function Add(a: Total, b: Total): Total {
    Total(a.lineCount + b.lineCount, a.usageQuantity + b.usageQuantity, a.onDemandCostCents + b.onDemandCostCents,
          a.realizedCostCents + b.realizedCostCents, a.commitmentAppliedCents + b.commitmentAppliedCents)
  }

  /** What one row adds, and to which group. */
  datatype Entry<G> = Entry(group: G, amounts: Total)

  function EntryOf(row: UsageRow): Entry<Group>
    requires ValidRow(row)
  {
    Entry(GroupOf(row),
          Total(1, ParseScaledDecimal(row.usageQuantity), Number(row.onDemandCostCents), Number(row.realizedCostCents),
                Number(row.commitmentAppliedCents)))
  }

  predicate ValidRows(rows: seq<UsageRow>) {
    forall i | 0 <= i < |rows| :: ValidRow(rows[i])
  }

  function Entries(rows: seq<UsageRow>): (entries: seq<Entry<Group>>)
    requires ValidRows(rows)
    ensures |entries| == |rows| && forall i | 0 <= i < |rows| :: entries[i] == EntryOf(rows[i])
  {
    if rows == [] then [] else Entries(rows[..|rows| - 1]) + [EntryOf(rows[|rows| - 1])]
  }

  /** matchesTotal compares texts. */
  predicate MatchesTotal(actual: Total, expected: ControlTotal) {
    && Numeral(actual.lineCount) == expected.lineCount
    && ScaledDecimalText(actual.usageQuantity) == expected.usageQuantity
    && Numeral(actual.onDemandCostCents) == expected.onDemandCostCents
    && Numeral(actual.realizedCostCents) == expected.realizedCostCents
    && Numeral(actual.commitmentAppliedCents) == expected.commitmentAppliedCents
  }

  // ---------------------------------------------------------------- what reconciliation means

  /** The total of the entries of one group. */
  function TotalOf<G(==)>(entries: seq<Entry<G>>, group: G): Total {
    if entries == [] then ZERO else
    var n := |entries| - 1;
    var before := TotalOf(entries[..n], group);
    if entries[n].group == group then Add(before, entries[n].amounts) else before
  }

  function Groups(entries: seq<Entry<Group>>): set<Group> {
    set i | 0 <= i < |entries| :: entries[i].group
  }

  /** The last expected total of each group. */
  function Expected(expected: seq<ControlTotal>): map<Group, ControlTotal> {
    if expected == [] then map[] else
    var last := expected[|expected| - 1];
    Expected(expected[..|expected| - 1])[last.group := last]
  }

  function Amounts(expected: ControlTotal): Total
    requires ValidExpected(expected)
  {
    Total(Number(expected.lineCount), ParseScaledDecimal(expected.usageQuantity), Number(expected.onDemandCostCents),
          Number(expected.realizedCostCents), Number(expected.commitmentAppliedCents))
  }

  predicate ValidTotals(expected: seq<ControlTotal>) {
    forall i | 0 <= i < |expected| :: ValidExpected(expected[i])
  }

  /** The groups are exactly the expected ones, and each has the expected amounts. */
  ghost predicate Agree(entries: seq<Entry<Group>>, expected: seq<ControlTotal>) {
    && Groups(entries) == Expected(expected).Keys
    && forall group | group in Expected(expected) ::
         ValidExpected(Expected(expected)[group]) && TotalOf(entries, group) == Amounts(Expected(expected)[group])
  }

  ghost predicate Reconciles(rows: seq<UsageRow>, expected: seq<ControlTotal>)
    requires ValidRows(rows)
  {
    Agree(Entries(rows), expected)
  }

  // ---------------------------------------------------------------- keys

  lemma FirstNul(left: string, left': string, right: string, right': string)
    requires NUL !in left && NUL !in left' && left + [NUL] + right == left' + [NUL] + right'
    ensures left == left' && right == right'
  {
    var text := left + [NUL] + right;
    assert text[..|left|] == left && text[|left|] == NUL && text[|left| + 1..] == right;
    SplitAtIs(text, NUL, |left|);
    assert text == left' + [NUL] + right';
    assert text[..|left'|] == left' && text[|left'|] == NUL && text[|left'| + 1..] == right';
    SplitAtIs(text, NUL, |left'|);
  }

  predicate Separable(group: Group) {
    NUL !in group.provider && NUL !in group.serviceCode && NUL !in group.region
  }

  /** totalKey tells groups apart: the separator cannot occur in their texts. */
  lemma TotalKeyInjective(group: Group, group': Group)
    requires Separable(group) && Separable(group') && TotalKey(group) == TotalKey(group')
    ensures group == group'
  {
    var rest2, rest2' := group.region + [NUL] + group.month, group'.region + [NUL] + group'.month;
    var rest1, rest1' := group.serviceCode + [NUL] + rest2, group'.serviceCode + [NUL] + rest2';
    assert TotalKey(group) == group.provider + [NUL] + rest1;
    assert TotalKey(group') == group'.provider + [NUL] + rest1';
    FirstNul(group.provider, group'.provider, rest1, rest1');
    FirstNul(group.serviceCode, group'.serviceCode, rest2, rest2');
    FirstNul(group.region, group'.region, group.month, group'.month);
  }

  /** Without that it does not: a NUL can move from one text to the next. */
  lemma NulMovesBetweenTexts(provider: string, a: string, b: string, c: string, month: string)
    ensures TotalKey(Group(provider, a + [NUL] + b, c, month)) == TotalKey(Group(provider, a, b + [NUL] + c, month))
  {
    var text := provider + [NUL] + a + [NUL] + b + [NUL] + c + [NUL] + month;
    assert TotalKey(Group(provider, a + [NUL] + b, c, month)) == text;
    assert TotalKey(Group(provider, a, b + [NUL] + c, month)) == text;
  }

  predicate SeparableEntries(entries: seq<Entry<Group>>) {
    forall i | 0 <= i < |entries| :: Separable(entries[i].group)
  }

  lemma MatchingIsEquality(actual: Total, expected: ControlTotal)
    requires ValidExpected(expected)
    ensures MatchesTotal(actual, expected) <==> actual == Amounts(expected)
  {
    NumeralReads(actual.lineCount);
    NumeralReads(actual.onDemandCostCents);
    NumeralReads(actual.realizedCostCents);
    NumeralReads(actual.commitmentAppliedCents);
    ScaledTextReads(actual.usageQuantity);
    ReadingNumeral(expected.lineCount);
    ReadingNumeral(expected.onDemandCostCents);
    ReadingNumeral(expected.realizedCostCents);
    ReadingNumeral(expected.commitmentAppliedCents);
    ReadingScaledText(expected.usageQuantity);
  }

  // ---------------------------------------------------------------- the loop

  /** The Map from keys to running totals after these entries. */
  function Accumulated(entries: seq<Entry<Group>>): map<string, Total> {
    if entries == [] then map[] else
    var n := |entries| - 1;
    var before, key := Accumulated(entries[..n]), TotalKey(entries[n].group);
    before[key := Add(if key in before then before[key] else ZERO, entries[n].amounts)]
  }

  function ExpectedByKey(expected: seq<ControlTotal>): map<string, ControlTotal> {
    if expected == [] then map[] else
    var last := expected[|expected| - 1];
    ExpectedByKey(expected[..|expected| - 1])[TotalKey(last.group) := last]
  }

  /** The first loop of validateControlTotals. */
  method GroupTotals(rows: seq<UsageRow>) returns (actual: map<string, Total>)
    requires ValidRows(rows)
    ensures actual == Accumulated(Entries(rows))
  {
    ghost var entries := Entries(rows);
    actual := map[];
    for i := 0 to |rows|
      invariant actual == Accumulated(entries[..i])
    {
      AccumulatedNext(entries, i);
      var entry := EntryOf(rows[i]);
      var key := TotalKey(entry.group);
      var current := if key in actual then actual[key] else ZERO;
      actual := actual[key := Add(current, entry.amounts)];
    }
    assert entries[..|rows|] == entries;
  }

  lemma AccumulatedNext(entries: seq<Entry<Group>>, i: nat)
    requires i < |entries|
    ensures var before, key := Accumulated(entries[..i]), TotalKey(entries[i].group);
            Accumulated(entries[..i + 1])
            == before[key := Add(if key in before then before[key] else ZERO, entries[i].amounts)]
  {
    assert entries[..i + 1][..i] == entries[..i];
  }

  /** null exactly when the import reconciles; no mismatch stands for null. */
  method ValidateControlTotals(rows: seq<UsageRow>, expected: seq<ControlTotal>) returns (mismatch: bool)
    requires ValidRows(rows) && ValidTotals(expected)
    ensures mismatch <==> !Reconciles(rows, expected)
  {
    var actual := GroupTotals(rows);
    var expectedMap := ExpectedByKey(expected);
    KeyedReconciles(rows, expected);
    var matches := SameTotals(actual, expectedMap);
    return !matches;
  }

  /** The comparison of the two Maps. */
  method SameTotals(actual: map<string, Total>, expectedMap: map<string, ControlTotal>) returns (same: bool)
    ensures same <==> KeyedMatch(actual, expectedMap)
  {
    if |actual| != |expectedMap| {
      return false;
    }
    var keys := actual.Keys;
    while keys != {}
      invariant keys <= actual.Keys
      invariant MatchingOff(actual, expectedMap, keys)
      decreases keys
    {
      var key :| key in keys;
      keys := keys - {key};
      if key !in expectedMap || !MatchesTotal(actual[key], expectedMap[key]) {
        return false;
      }
    }
    SameSizeMatches(actual, expectedMap);
    return true;
  }

  /** Every entry outside these keys has its match. */
  ghost predicate MatchingOff(actual: map<string, Total>, expected: map<string, ControlTotal>, keys: set<string>) {
    forall key | key in actual && key !in keys :: key in expected && MatchesTotal(actual[key], expected[key])
  }

  /** Matching entries and equal sizes force equal domains. */
  lemma SameSizeMatches(actual: map<string, Total>, expected: map<string, ControlTotal>)
    requires |actual| == |expected| && MatchingOff(actual, expected, {})
    ensures KeyedMatch(actual, expected)
  {
    SubsetSize(actual.Keys, expected.Keys);
  }

  lemma GroupsSnoc(entries: seq<Entry<Group>>)
    requires entries != []
    ensures Groups(entries) == Groups(entries[..|entries| - 1]) + {entries[|entries| - 1].group}
  {
    var n := |entries| - 1;
    forall group | group in Groups(entries)
      ensures group in Groups(entries[..n]) + {entries[n].group}
    {
      var i :| 0 <= i <= n && entries[i].group == group;
      assert i < n ==> entries[..n][i].group == group;
    }
  }

  /** What one more entry does to the running total of a group, and to the Map. */
  lemma OneMoreEntry(entries: seq<Entry<Group>>, group: Group)
    requires entries != [] && Separable(group) && Separable(entries[|entries| - 1].group)
    ensures var n := |entries| - 1; var key, before := TotalKey(group), Accumulated(entries[..n]);
            var after := Accumulated(entries);
            if entries[n].group == group
            then
              && TotalOf(entries, group) == Add(TotalOf(entries[..n], group), entries[n].amounts)
              && key in after
              && after[key] == Add(if key in before then before[key] else ZERO, entries[n].amounts)
            else
              && TotalOf(entries, group) == TotalOf(entries[..n], group)
              && (key in after <==> key in before) && (key in before ==> after[key] == before[key])
  {
    var n := |entries| - 1;
    if TotalKey(group) == TotalKey(entries[n].group) {
      TotalKeyInjective(group, entries[n].group);
    }
  }

  lemma {:induction false} AccumulatedAt(entries: seq<Entry<Group>>, group: Group)
    requires SeparableEntries(entries) && Separable(group)
    ensures TotalKey(group) in Accumulated(entries) <==> group in Groups(entries)
    ensures TotalKey(group) in Accumulated(entries) ==> Accumulated(entries)[TotalKey(group)] == TotalOf(entries, group)
    ensures group !in Groups(entries) ==> TotalOf(entries, group) == ZERO
  {
    if entries != [] {
      AccumulatedAt(entries[..|entries| - 1], group);
      GroupsSnoc(entries);
      OneMoreEntry(entries, group);
    }
  }

  lemma {:induction false} AccumulatedKeys(entries: seq<Entry<Group>>)
    ensures Accumulated(entries).Keys == set group | group in Groups(entries) :: TotalKey(group)
  {
    if entries != [] {
      AccumulatedKeys(entries[..|entries| - 1]);
      GroupsSnoc(entries);
    }
  }

  lemma {:induction false} ExpectedAt(expected: seq<ControlTotal>, group: Group)
    requires ValidTotals(expected) && Separable(group)
    ensures TotalKey(group) in ExpectedByKey(expected) <==> group in Expected(expected)
    ensures group in Expected(expected) ==> ExpectedByKey(expected)[TotalKey(group)] == Expected(expected)[group]
    ensures group in Expected(expected) ==> ValidExpected(Expected(expected)[group])
  {
    if expected != [] {
      var n := |expected| - 1;
      ExpectedAt(expected[..n], group);
      assert ValidExpected(expected[n]) && Separable(expected[n].group);
      if TotalKey(group) == TotalKey(expected[n].group) {
        TotalKeyInjective(group, expected[n].group);
      }
    }
  }

  lemma {:induction false} ExpectedKeys(expected: seq<ControlTotal>)
    requires ValidTotals(expected)
    ensures ExpectedByKey(expected).Keys == set group | group in Expected(expected) :: TotalKey(group)
    ensures forall group | group in Expected(expected) :: Separable(group)
  {
    if expected != [] {
      var n := |expected| - 1;
      ExpectedKeys(expected[..n]);
      assert ValidExpected(expected[n]) && Separable(expected[n].group);
      assert Expected(expected).Keys == Expected(expected[..n]).Keys + {expected[n].group};
    }
  }

  ghost predicate KeyedMatch(actual: map<string, Total>, expected: map<string, ControlTotal>) {
    actual.Keys == expected.Keys && forall key | key in actual :: MatchesTotal(actual[key], expected[key])
  }

  /** What the two Maps hold under a group's key. */
  lemma UnderKey(entries: seq<Entry<Group>>, expected: seq<ControlTotal>, group: Group)
    requires SeparableEntries(entries) && ValidTotals(expected) && Separable(group)
    ensures var key, actual, wanted := TotalKey(group), Accumulated(entries), ExpectedByKey(expected);
            && (key in actual <==> group in Groups(entries))
            && (key in wanted <==> group in Expected(expected))
            && (group in Expected(expected) ==> ValidExpected(Expected(expected)[group]))
            && (key in actual && key in wanted ==>
                  (MatchesTotal(actual[key], wanted[key]) <==>
                   TotalOf(entries, group) == Amounts(Expected(expected)[group])))
  {
    AccumulatedAt(entries, group);
    ExpectedAt(expected, group);
    if group in Expected(expected) {
      MatchingIsEquality(TotalOf(entries, group), Expected(expected)[group]);
    }
  }

  lemma AgreeMeansMatch(entries: seq<Entry<Group>>, expected: seq<ControlTotal>)
    requires SeparableEntries(entries) && ValidTotals(expected) && Agree(entries, expected)
    ensures KeyedMatch(Accumulated(entries), ExpectedByKey(expected))
  {
    AccumulatedKeys(entries);
    ExpectedKeys(expected);
    forall key | key in Accumulated(entries)
      ensures MatchesTotal(Accumulated(entries)[key], ExpectedByKey(expected)[key])
    {
      var group :| group in Groups(entries) && TotalKey(group) == key;
      UnderKey(entries, expected, group);
    }
  }

  lemma MatchMeansAgree(entries: seq<Entry<Group>>, expected: seq<ControlTotal>)
    requires SeparableEntries(entries) && ValidTotals(expected)
    requires KeyedMatch(Accumulated(entries), ExpectedByKey(expected))
    ensures Agree(entries, expected)
  {
    ExpectedKeys(expected);
    forall group | group in Groups(entries) + Expected(expected).Keys
      ensures group in Groups(entries) && group in Expected(expected)
      ensures ValidExpected(Expected(expected)[group]) && TotalOf(entries, group) == Amounts(Expected(expected)[group])
    {
      UnderKey(entries, expected, group);
    }
  }

  /** Comparing the two Maps by key and text is comparing the groups and their amounts. */
  lemma KeyedReconciles(rows: seq<UsageRow>, expected: seq<ControlTotal>)
    requires ValidRows(rows) && ValidTotals(expected)
    ensures KeyedMatch(Accumulated(Entries(rows)), ExpectedByKey(expected)) <==> Reconciles(rows, expected)
  {
    var entries := Entries(rows);
    assert SeparableEntries(entries);
    if Agree(entries, expected) {
      AgreeMeansMatch(entries, expected);
    }
    if KeyedMatch(Accumulated(entries), ExpectedByKey(expected)) {
      MatchMeansAgree(entries, expected);
    }
  }

  // ---------------------------------------------------------------- conservation

  /** The total of these groups' totals. */
  function SumOver<G(==)>(entries: seq<Entry<G>>, groups: seq<G>): Total {
    if groups == [] then ZERO else Add(TotalOf(entries, groups[0]), SumOver(entries, groups[1..]))
  }

  /** The total of all entries, whatever their group. */
  function GrandTotal<G>(entries: seq<Entry<G>>): Total {
    if entries == [] then ZERO else Add(GrandTotal(entries[..|entries| - 1]), entries[|entries| - 1].amounts)
  }

  ghost predicate Distinct<G>(groups: seq<G>) {
    forall i, j | 0 <= i < j < |groups| :: groups[i] != groups[j]
  }

  lemma AddRearranges(a: Total, b: Total, c: Total)
    ensures Add(a, ZERO) == a
    ensures Add(Add(a, c), b) == Add(Add(a, b), c) == Add(a, Add(b, c))
  {
  }

  lemma {:induction false} SumOverEntry<G>(entries: seq<Entry<G>>, groups: seq<G>)
    requires entries != [] && Distinct(groups)
    ensures var n := |entries| - 1;
            SumOver(entries, groups) ==
            if entries[n].group in groups then Add(SumOver(entries[..n], groups), entries[n].amounts)
            else SumOver(entries[..n], groups)
  {
    if groups != [] {
      var n := |entries| - 1;
      var first, rest := TotalOf(entries[..n], groups[0]), SumOver(entries[..n], groups[1..]);
      var amounts := entries[n].amounts;
      SumOverEntry(entries, groups[1..]);
      ConsMember(groups, entries[n].group);
      AddRearranges(first, rest, amounts);
      assert SumOver(entries[..n], groups) == Add(first, rest);
      if entries[n].group == groups[0] {
        assert TotalOf(entries, groups[0]) == Add(first, amounts);
        assert groups[0] !in groups[1..];
      } else {
        assert TotalOf(entries, groups[0]) == first;
      }
    }
  }

  lemma {:induction false} SumOverNothing<G>(entries: seq<Entry<G>>, groups: seq<G>)
    requires entries == []
    ensures SumOver(entries, groups) == ZERO
  {
    if groups != [] {
      SumOverNothing(entries, groups[1..]);
      assert TotalOf(entries, groups[0]) == ZERO;
      AddRearranges(ZERO, ZERO, ZERO);
    }
  }

  /** Grouping loses and invents nothing: the totals of the groups, in any order, add up to that of all rows. */
  lemma {:induction false} GroupsConserve<G>(entries: seq<Entry<G>>, groups: seq<G>)
    requires Distinct(groups) && forall i | 0 <= i < |entries| :: entries[i].group in groups
    ensures SumOver(entries, groups) == GrandTotal(entries)
  {
    if entries == [] {
      SumOverNothing(entries, groups);
    } else {
      SumOverEntry(entries, groups);
      GroupsConserve(entries[..|entries| - 1], groups);
      assert entries[|entries| - 1].group in groups;
    }
  }
}
