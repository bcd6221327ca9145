/** `print_daily_report`, which bot/str_utils.py and str_utils.py define
    with the same text: a framed table of (product, calories) pairs and
    their total. */
module DailyReport {
  import opened Text

  const Title: string := "📊  Отчёт за сегодня"

  /** A full-width rule: 40 copies of c and a line break. */
  function Rule(c: char): (r: string)
    ensures |r| == 41 && r[40] == '\n'
  {
    Repeat(c, 40) + "\n"
  }

  /** The three pieces the report starts with. */
  function Header(): string {
    ("\n" + Rule('=')) + (Center(Title, 40) + "\n") + Rule('=')
  }

  /** `f"{i:>2}. {name:<15} | {calories:>4} ккал" + "\n"`. */
  function ItemLine(i: nat, item: (string, int)): string {
    NumberField(i) + NameField(item.0) + CaloriesField(item.1)
  }

  function NumberField(i: nat): string {
    PadLeft(NatToString(i), 2) + ". "
  }

  function NameField(name: string): string {
    PadRight(name, 15) + " | "
  }

  function CaloriesField(calories: int): string {
    PadLeft(IntToString(calories), 4) + " ккал" + "\n"
  }

  /** `sum(cal for _, cal in products)`. */
  function Total(products: seq<(string, int)>): int {
    if products == [] then 0 else Total(products[..|products| - 1]) + products[|products| - 1].1
  }

  function TotalLine(total: int): string {
    PadLeft("🔥  Всего калорий: " + IntToString(total) + " ккал", 40) + "\n"
  }

  function Report(products: seq<(string, int)>): string {
    Header() + ConcatIndexed(products, 1, ItemLine) + Rule('-') + TotalLine(Total(products)) + Rule('=')
  }

  /** The report is built with `+=`: three header pieces, one item line
      per product in the `enumerate(products, 1)` loop, then three footer
      pieces. */
  method PrintDailyReport(products: seq<(string, int)>) returns (report: string)
    ensures report == Report(products)
  {
    var total := Total(products);
    report := "";
    report := report + ("\n" + Rule('='));
    report := report + (Center(Title, 40) + "\n");
    report := report + Rule('=');
    assert report == Header() by {
      assert "" + ("\n" + Rule('=')) == "\n" + Rule('=');
    }
    report := AppendIndexed(report, products, 1, ItemLine);
    report := report + Rule('-');
    report := report + TotalLine(total);
    report := report + Rule('=');
  }

  /** The report opens with a blank line and a rule of '=' and closes with
      the total line and such a rule. */
  lemma ReportFrame(products: seq<(string, int)>)
    ensures StartsWith(Report(products), "\n" + Rule('='))
    ensures EndsWith(Report(products), TotalLine(Total(products)) + Rule('='))
  {
    var head := "\n" + Rule('=');
    var items := ConcatIndexed(products, 1, ItemLine);
    assert StartsWith(head, head);
    StartsWithExtend(head, Center(Title, 40) + "\n", head);
    StartsWithExtend(head + (Center(Title, 40) + "\n"), Rule('='), head);
    StartsWithExtend(Header(), items, head);
    StartsWithExtend(Header() + items, Rule('-'), head);
    StartsWithExtend(Header() + items + Rule('-'), TotalLine(Total(products)), head);
    StartsWithExtend(Header() + items + Rule('-') + TotalLine(Total(products)), Rule('='), head);
    var tail := TotalLine(Total(products));
    assert EndsWith(tail, tail);
    EndsWithPrepend(Header() + items + Rule('-'), tail, tail);
    EndsWithExtend(Header() + items + Rule('-') + tail, tail, Rule('='));
  }

  /** The total line is right-aligned in 40 columns and ends with the sum
      of all calorie values. */
  lemma TotalLineShowsSum(products: seq<(string, int)>)
    ensures var line := TotalLine(Total(products));
      EndsWith(line, IntToString(Total(products)) + " ккал" + "\n")
      && |line| >= 41
  {
    var sum := IntToString(Total(products));
    var caption := "🔥  Всего калорий: " + sum + " ккал";
    var padded := PadLeft(caption, 40);
    assert EndsWith(padded, caption);
    assert EndsWith(sum + " ккал", sum + " ккал");
    EndsWithPrepend("🔥  Всего калорий: ", sum + " ккал", sum + " ккал");
    assert caption == "🔥  Всего калорий: " + (sum + " ккал");
    assert EndsWith(padded, sum + " ккал") by {
      assert padded[|padded| - |sum + " ккал"|..] == caption[|caption| - |sum + " ккал"|..];
    }
    EndsWithExtend(padded, sum + " ккал", "\n");
  }

  /** `Total` is the sum over the whole list: it adds up across a split. */
  lemma {:induction false} TotalSplit(a: seq<(string, int)>, b: seq<(string, int)>)
    ensures Total(a + b) == Total(a) + Total(b)
  {
    if b == [] {
      assert a + b == a;
    } else {
      assert (a + b)[..|a + b| - 1] == a + b[..|b| - 1];
      TotalSplit(a, b[..|b| - 1]);
    }
  }

  /** Appending a product to the list adds exactly its line, numbered
      one past the others, and adds its calories to the total. */
  lemma {:induction false} AppendProductAddsLine(products: seq<(string, int)>, item: (string, int))
    ensures ConcatIndexed(products + [item], 1, ItemLine)
         == ConcatIndexed(products, 1, ItemLine) + ItemLine(|products| + 1, item)
    ensures Total(products + [item]) == Total(products) + item.1
  {
    ConcatIndexedSplit(products, [item], 1, ItemLine);
    TotalSplit(products, [item]);
    assert [item][..0] == [];
  }

  /** An empty list gives no item lines and a total of 0. */
  lemma EmptyReport()
    ensures Report([]) == Header() + Rule('-') + TotalLine(0) + Rule('=')
  {
  }

  lemma ItemLineIsOneLine(i: nat, item: (string, int))
    requires '\n' !in item.0
    ensures Newlines(ItemLine(i, item)) == 1
  {
    var num, name := NumberField(i), NameField(item.0);
    var cal := PadLeft(IntToString(item.1), 4) + " ккал";
    assert '\n' !in NatToString(i);
    assert '\n' !in IntToString(item.1);
    assert '\n' !in num + name;
    assert '\n' !in cal;
    NewlinesNone(num + name);
    NewlinesNone(cal);
    NewlinesConcat(cal, "\n");
    NewlinesConcat(num + name, CaloriesField(item.1));
  }

  /** One line per product as long as no product name holds a line break. */
  lemma ItemLinesCount(products: seq<(string, int)>)
    requires forall k :: 0 <= k < |products| ==> '\n' !in products[k].0
    ensures Newlines(ConcatIndexed(products, 1, ItemLine)) == |products|
  {
    forall k | 0 <= k < |products| ensures Newlines(ItemLine(1 + k, products[k])) == 1 {
      ItemLineIsOneLine(1 + k, products[k]);
    }
    ConcatIndexedLines(products, 1, ItemLine);
  }

  lemma RuleIsOneLine(c: char)
    requires c != '\n'
    ensures Newlines(Rule(c)) == 1
  {
    NewlinesNone(Repeat(c, 40));
    NewlinesConcat(Repeat(c, 40), "\n");
  }

  lemma HeaderLines()
    ensures Newlines(Header()) == 4
  {
    var centered := Center(Title, 40);
    assert '\n' !in Title;
    assert '\n' !in centered;
    NewlinesNone(centered);
    RuleIsOneLine('=');
    NewlinesConcat("\n", Rule('='));
    NewlinesConcat(centered, "\n");
    NewlinesConcat("\n" + Rule('='), centered + "\n");
    NewlinesConcat(("\n" + Rule('=')) + (centered + "\n"), Rule('='));
  }

  lemma TotalLineIsOneLine(total: int)
    ensures Newlines(TotalLine(total)) == 1
  {
    var caption := "🔥  Всего калорий: " + IntToString(total) + " ккал";
    assert '\n' !in IntToString(total);
    assert '\n' !in caption;
    assert '\n' !in PadLeft(caption, 40);
    NewlinesNone(PadLeft(caption, 40));
    NewlinesConcat(PadLeft(caption, 40), "\n");
  }

  /** One line per product, numbered from 1, between four header lines and
      three footer lines, as long as no product name holds a line break. */
  lemma ReportLineCount(products: seq<(string, int)>)
    requires forall k :: 0 <= k < |products| ==> '\n' !in products[k].0
    ensures Newlines(Report(products)) == |products| + 7
  {
    var items := ConcatIndexed(products, 1, ItemLine);
    ItemLinesCount(products);
    HeaderLines();
    RuleIsOneLine('-');
    RuleIsOneLine('=');
    TotalLineIsOneLine(Total(products));
    NewlinesConcat(Header(), items);
    NewlinesConcat(Header() + items, Rule('-'));
    NewlinesConcat(Header() + items + Rule('-'), TotalLine(Total(products)));
    NewlinesConcat(Header() + items + Rule('-') + TotalLine(Total(products)), Rule('='));
  }

  /** A position from 1 to 99 takes two columns, and with ". " four. */
  lemma NumberFieldWidth(i: nat)
    requires 1 <= i <= 99
    ensures |NumberField(i)| == 4
  {
    if i >= 10 {
      assert NatToString(i / 10) == [DigitChar(i / 10)];
    }
  }

  /** The calories field shows the number whole, right-aligned in four
      columns. */
  lemma CaloriesFieldShowsValue(calories: int)
    ensures EndsWith(CaloriesField(calories), IntToString(calories) + " ккал" + "\n")
    ensures |IntToString(calories)| <= 4 ==> |CaloriesField(calories)| == 10
  {
    var cal := IntToString(calories);
    assert EndsWith(PadLeft(cal, 4), cal);
    EndsWithExtend(PadLeft(cal, 4), cal, " ккал");
    EndsWithExtend(PadLeft(cal, 4) + " ккал", cal + " ккал", "\n");
  }

  /** Each item line keeps its fields whole: the number right-aligned in
      two columns and ". ", then the full name, and at the end the
      calories; a name of at most 15 characters and calories of at most 4
      characters give the fixed 32-character layout. */
  lemma ItemLineLayout(i: nat, item: (string, int))
    requires 1 <= i <= 99
    ensures var line := ItemLine(i, item);
      |line| >= 4 + |item.0| && line[..4] == PadLeft(NatToString(i), 2) + ". " && line[4..4 + |item.0|] == item.0
      && EndsWith(line, IntToString(item.1) + " ккал" + "\n")
    ensures |item.0| <= 15 && |IntToString(item.1)| <= 4 ==> |ItemLine(i, item)| == 32
  {
    var num, name, cal := NumberField(i), NameField(item.0), CaloriesField(item.1);
    NumberFieldWidth(i);
    CaloriesFieldShowsValue(item.1);
    var line := num + name + cal;
    assert line[..4] == num;
    assert line[4..4 + |item.0|] == name[..|item.0|];
    EndsWithPrepend(num + name, cal, IntToString(item.1) + " ккал" + "\n");
  }
}
