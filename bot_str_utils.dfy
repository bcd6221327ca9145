/** The message text `send_card` (bot/str_utils.py) assembles before it
    hands it to Telegram: a title, a separator, one line per field, a
    second separator and an optional footer, joined by line breaks. The
    module's `print_daily_report` is the one in DailyReport. */
module BotStrUtils {
  import opened Collections
  import opened Text

  const Separator: string := "━━━━━━━━━━━━━━━"

  /** `f"📋 <b>{title}</b>"`. */
  function TitleLine(title: string): string {
    "📋 <b>" + title + "</b>"
  }

  /** `f"{label} <b>{value}</b>"` for a (label, value) field. */
  function FieldLine(field: (string, string)): string {
    field.0 + " <b>" + field.1 + "</b>"
  }

  /** `if footer:`: a footer of None or "" adds no line. */
  predicate HasFooter(footer: Option<string>) {
    footer.Some? && footer.value != ""
  }

  function FooterLines(footer: Option<string>): (r: seq<string>)
    ensures |r| == if HasFooter(footer) then 1 else 0
  {
    if HasFooter(footer) then ["\n" + footer.value] else []
  }

  /** The `lines` list once it is complete. */
  function CardLines(title: string, fields: seq<(string, string)>, footer: Option<string>): seq<string> {
    [TitleLine(title), Separator] + Map(fields, FieldLine) + [Separator] + FooterLines(footer)
  }

  /** `lines` is built by `append`, one field per loop pass, and joined
      with "\n". */
  method CardText(title: string, fields: seq<(string, string)>, footer: Option<string>) returns (text: string)
    ensures text == Join(CardLines(title, fields, footer), "\n")
  {
    var lines := [TitleLine(title), Separator];
    for k := 0 to |fields|
      invariant lines == [TitleLine(title), Separator] + Map(fields[..k], FieldLine)
    {
      MapStep(fields, FieldLine, k);
      lines := lines + [FieldLine(fields[k])];
    }
    assert fields[..|fields|] == fields;
    lines := lines + [Separator];
    if footer.Some? && footer.value != "" {
      lines := lines + ["\n" + footer.value];
    } else {
      assert lines + FooterLines(footer) == lines;
    }
    assert lines == CardLines(title, fields, footer);
    text := Join(lines, "\n");
  }

  /** The lines are the title, a separator, the fields in their order, a
      separator, and the footer exactly when one is given. */
  lemma CardLinesShape(title: string, fields: seq<(string, string)>, footer: Option<string>)
    ensures var lines := CardLines(title, fields, footer);
      |lines| == |fields| + 3 + (if HasFooter(footer) then 1 else 0)
      && lines[0] == "📋 <b>" + title + "</b>" && lines[1] == Separator
      && (forall k :: 0 <= k < |fields| ==> lines[2 + k] == fields[k].0 + " <b>" + fields[k].1 + "</b>")
      && lines[|fields| + 2] == Separator
      && (HasFooter(footer) ==> lines[|fields| + 3] == "\n" + footer.value)
  {
    var lines := CardLines(title, fields, footer);
    forall k | 0 <= k < |fields| ensures lines[2 + k] == FieldLine(fields[k]) {
      MapAt(fields, FieldLine, k);
    }
  }

  /** The text opens with the title line and the separator, each on a line
      of its own, before the joined rest. */
  lemma CardTextStart(title: string, fields: seq<(string, string)>, footer: Option<string>)
    ensures Join(CardLines(title, fields, footer), "\n")
         == TitleLine(title) + "\n" + Separator + "\n"
            + Join(Map(fields, FieldLine) + [Separator] + FooterLines(footer), "\n")
  {
    var rest := Map(fields, FieldLine) + [Separator] + FooterLines(footer);
    assert CardLines(title, fields, footer) == [TitleLine(title), Separator] + rest;
    JoinSplit([TitleLine(title), Separator], rest, "\n");
    assert [TitleLine(title), Separator][..1] == [TitleLine(title)];
  }

  /** With no line break inside the title, the fields or the footer, the
      text has |fields| + 3 lines, and two more for a footer (the blank
      line before it and its own). */
  lemma CardTextLines(title: string, fields: seq<(string, string)>, footer: Option<string>)
    requires '\n' !in title
    requires forall k :: 0 <= k < |fields| ==> '\n' !in fields[k].0 && '\n' !in fields[k].1
    requires footer.Some? ==> '\n' !in footer.value
    ensures Newlines(Join(CardLines(title, fields, footer), "\n"))
         == |fields| + 2 + (if HasFooter(footer) then 2 else 0)
  {
    var body := [TitleLine(title), Separator] + Map(fields, FieldLine) + [Separator];
    forall k | 0 <= k < |body| ensures '\n' !in body[k] {
      if 2 <= k < |fields| + 2 {
        MapAt(fields, FieldLine, k - 2);
      }
    }
    JoinLines(body);
    if HasFooter(footer) {
      var last := "\n" + footer.value;
      assert CardLines(title, fields, footer) == body + [last];
      JoinSplit(body, [last], "\n");
      NewlinesNone(footer.value);
      NewlinesConcat("\n", footer.value);
      NewlinesConcat(Join(body, "\n"), "\n");
      NewlinesConcat(Join(body, "\n") + "\n", last);
    } else {
      assert CardLines(title, fields, footer) == body;
    }
  }
}
