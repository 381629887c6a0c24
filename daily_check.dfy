/**
 * The morning fridge report of daily_check.py: the text `get_fridge_summary`
 * builds from the pages a Notion database query returns.
 *
 * The query itself is an input: `Success(response)` is the decoded response
 * dict, `Failure(text)` means the query call raised an exception whose
 * `str` is `text`.  Everything inside the `try` block that can raise is a
 * `Result`; the `except` branch turns the exception into the error text.
 */
module DailyCheck {
  import opened Wrappers
  import opened PyValues

  /** The reply when there is nothing to list; split so that `EmptyFridge` can read its first character. */
  const EmptyMessage: string := "\U{1F9CA} Your fridge is empty! " + "No leftovers to worry about today."
  /** The first line of a non-empty report. */
  const Header: string := "\U{1F371} Morning Fridge Update:\n"
  /** What the `except` branch puts before `str(e)`. */
  const ErrorPrefix: string := "\U{274C} Error checking fridge: "

  /**
   * `title_list = p.get("Food", {}).get("title", [])`, then
   * `title_list[0]["text"]["content"] if title_list else "Unknown"`.
   */
  function FoodName(p: JVal): (r: Result<JVal, PyError>)
    ensures !p.JObj? ==> r == Failure(AttributeError(TypeName(p), "get"))
    ensures p.JObj? && "Food" !in Keys(p.fields) ==> r == Success(JStr("Unknown"))
  {
    var food :- Get(p, "Food", EmptyDict);
    var titleList :- Get(food, "title", JList([]));
    if Truthy(titleList) then Path(titleList, [KInt(0), KStr("text"), KStr("content")])
    else Success(JStr("Unknown"))
  }

  /** `p.get("Days Left", {}).get("formula", {}).get("string", "N/A")` */
  function DaysLeft(p: JVal): (r: Result<JVal, PyError>)
    ensures !p.JObj? ==> r == Failure(AttributeError(TypeName(p), "get"))
    ensures p.JObj? && "Days Left" !in Keys(p.fields) ==> r == Success(JStr("N/A"))
  {
    var daysLeft :- Get(p, "Days Left", EmptyDict);
    var formula :- Get(daysLeft, "formula", EmptyDict);
    Get(formula, "string", JStr("N/A"))
  }

  /** The food and days values of one page, read in the order the loop body reads them. */
  function PageFields(page: JVal): (r: Result<(JVal, JVal), PyError>)
    ensures !page.JObj? ==> r == Failure(AttributeError(TypeName(page), "get"))
    ensures page.JObj? && "properties" !in Keys(page.fields) ==> r == Success((JStr("Unknown"), JStr("N/A")))
  {
    assert FoodName(EmptyDict) == Success(JStr("Unknown"));
    assert DaysLeft(EmptyDict) == Success(JStr("N/A"));
    var p :- Get(page, "properties", EmptyDict);
    var food :- FoodName(p);
    var days :- DaysLeft(p);
    Success((food, days))
  }

  /** `f"- {food}: {days}\n"` */
  function Line(food: JVal, days: JVal): (line: string)
    ensures |line| == |Str(food)| + |Str(days)| + 5
    ensures line[..2] == "- " && line[2..2 + |Str(food)|] == Str(food)
    ensures line[2 + |Str(food)|..4 + |Str(food)|] == ": " && line[4 + |Str(food)|..|line| - 1] == Str(days)
    ensures line[|line| - 1] == '\n'
  {
    LineParts(Str(food), Str(days));
    "- " + Str(food) + ": " + Str(days) + "\n"
  }

  lemma LineParts(f: string, d: string)
    ensures var line := "- " + f + ": " + d + "\n";
      line[2 + |f|..4 + |f|] == ": " && line[4 + |f|..|line| - 1] == d
  {
    var line := "- " + f + ": " + d + "\n";
    assert line == ("- " + f + ": ") + d + "\n";
  }

  /** The line one page adds to the report. */
  function ReportLine(page: JVal): Result<string, PyError> {
    var fields :- PageFields(page);
    Success(Line(fields.0, fields.1))
  }

  /** The lines of all pages in order, or the first exception a page raises. */
  function ReportBody(pages: seq<JVal>): Result<string, PyError> {
    if pages == [] then Success("")
    else
      var line :- ReportLine(pages[0]);
      var rest :- ReportBody(pages[1..]);
      Success(line + rest)
  }

  /** What the `try` block returns, or the exception that leaves it. */
  function Outcome(response: Result<JVal, string>): (r: Result<string, PyError>)
    ensures response.Failure? ==> r == Failure(Raised(response.error))
    ensures r.Success? ==> r.value == EmptyMessage || Header <= r.value
  {
    match response
    case Failure(text) => Failure(Raised(text))
    case Success(resp) =>
      var results :- Get(resp, "results", JList([]));
      if !Truthy(results) then Success(EmptyMessage)
      else
        var pages :- Iterate(results);
        var body :- ReportBody(pages);
        Success(Header + body)
  }

  /** The text `get_fridge_summary` returns. */
  function Summary(response: Result<JVal, string>): (text: string)
    ensures text == EmptyMessage || Header <= text || ErrorPrefix <= text
    ensures ErrorPrefix <= text <==> Outcome(response).Failure?
  {
    OpeningCharacters();
    match Outcome(response)
    case Success(text) => text
    case Failure(e) => ErrorPrefix + Message(e)
  }

  /** `prefix` put in front of a successful text; an exception passes through. */
  function Prepend(prefix: string, r: Result<string, PyError>): Result<string, PyError> {
    match r
    case Success(s) => Success(prefix + s)
    case Failure(e) => Failure(e)
  }

  // The sequence identities the loop proof needs, kept as lemmas: written as
  // asserts inside `GetFridgeSummary` they make its proof far more expensive.

  lemma AppendEmpty(s: string)
    ensures s + "" == s && "" + s == s
  {
  }

  lemma AppendAssoc(a: string, b: string, c: string)
    ensures (a + b) + c == a + (b + c)
  {
  }

  /** Prepending twice is prepending the concatenation. */
  lemma PrependTwice(a: string, b: string, r: Result<string, PyError>)
    ensures Prepend(a, Prepend(b, r)) == Prepend(a + b, r)
  {
    if r.Success? {
      assert a + (b + r.value) == (a + b) + r.value;
    }
  }

  /** Once the results are a non-empty iterable, the report is the header and the page lines. */
  lemma OutcomeOfPages(resp: JVal, results: JVal, pages: seq<JVal>)
    requires Get(resp, "results", JList([])) == Success(results) && Truthy(results)
    requires Iterate(results) == Success(pages)
    ensures Outcome(Success(resp)) == Prepend(Header, ReportBody(pages))
  {
  }

  /** One step of the body: the first page's line, then the rest. */
  lemma BodyStep(pages: seq<JVal>, i: nat)
    requires i < |pages|
    ensures ReportBody(pages[i..]) ==
      (match ReportLine(pages[i])
       case Failure(e) => Failure(e)
       case Success(line) => Prepend(line, ReportBody(pages[i + 1..])))
  {
    assert pages[i..][0] == pages[i] && pages[i..][1..] == pages[i + 1..];
  }

  /** `get_fridge_summary`, its `msg +=` loop proved against `Summary`. */
  method GetFridgeSummary(response: Result<JVal, string>) returns (summary: string)
    ensures summary == Summary(response)
  {
    if response.Failure? {
      return ErrorPrefix + response.error;
    }
    var got := Get(response.value, "results", JList([]));
    if got.Failure? {
      return ErrorPrefix + Message(got.error);
    }
    var results := got.value;
    if !Truthy(results) {
      return EmptyMessage;
    }
    var iterated := Iterate(results);
    if iterated.Failure? {
      return ErrorPrefix + Message(iterated.error);
    }
    var pages := iterated.value;
    OutcomeOfPages(response.value, results, pages);
    var msg := Header;
    ghost var written := "";
    var i := 0;
    AppendEmpty(Header);
    assert pages[i..] == pages;
    if ReportBody(pages).Success? {
      AppendEmpty(ReportBody(pages).value);
    }
    while i < |pages|
      invariant 0 <= i <= |pages|
      invariant msg == Header + written
      invariant ReportBody(pages) == Prepend(written, ReportBody(pages[i..]))
    {
      BodyStep(pages, i);
      var line := ReportLine(pages[i]);
      if line.Failure? {
        return ErrorPrefix + Message(line.error);
      }
      PrependTwice(written, line.value, ReportBody(pages[i + 1..]));
      AppendAssoc(Header, written, line.value);
      msg := msg + line.value;
      written := written + line.value;
      i := i + 1;
    }
    assert pages[i..] == [];
    AppendEmpty(written);
    assert ReportBody(pages) == Success(written);
    return msg;
  }

  // ---------------------------------------------------------------------
  // Properties of the report

  /** The query succeeded and its `results` entry is the list `pages`. */
  predicate ResultsAre(response: Result<JVal, string>, pages: seq<JVal>) {
    response.Success? && At(response.value, "results") == Some(JList(pages))
  }

  /** The query succeeded with a dict whose `results` is absent or falsy. */
  predicate NoResults(response: Result<JVal, string>) {
    && response.Success?
    && response.value.JObj?
    && (At(response.value, "results").None? || !Truthy(At(response.value, "results").value))
  }

  /** Every page yields its food and days without raising. */
  predicate AllRender(pages: seq<JVal>) {
    forall i :: 0 <= i < |pages| ==> PageFields(pages[i]).Success?
  }

  function Concat(parts: seq<string>): string {
    if parts == [] then "" else parts[0] + Concat(parts[1..])
  }

  function CountChar(c: char, s: string): nat {
    if s == [] then 0 else (if s[0] == c then 1 else 0) + CountChar(c, s[1..])
  }

  lemma {:induction false} CountCharAppend(c: char, a: string, b: string)
    ensures CountChar(c, a + b) == CountChar(c, a) + CountChar(c, b)
  {
    if a == [] {
      assert a + b == b;
    } else {
      assert (a + b)[0] == a[0] && (a + b)[1..] == a[1..] + b;
      CountCharAppend(c, a[1..], b);
    }
  }

  /** The report is the fixed empty message exactly when there are no results to list. */
  lemma EmptyFridge(response: Result<JVal, string>)
    ensures Summary(response) == EmptyMessage <==> NoResults(response)
  {
    OpeningCharacters();
    match Outcome(response)
    case Failure(e) =>
      assert Summary(response) == ErrorPrefix + Message(e);
      assert Summary(response)[0] != EmptyMessage[0];
    case Success(text) =>
      var resp := response.value;
      var results := Get(resp, "results", JList([])).value;
      assert resp.JObj? && results == At(resp, "results").GetOr(JList([]));
      if Truthy(results) {
        var body := ReportBody(Iterate(results).value).value;
        assert text == Header + body;
        assert text[0] != EmptyMessage[0];
      }
  }

  /** The three kinds of report open with different emoji. */
  lemma OpeningCharacters()
    ensures EmptyMessage[0] == '\U{1F9CA}' && Header[0] == '\U{1F371}' && ErrorPrefix[0] == '\U{274C}'
  {
  }

  /** With every page readable, the body is the pages' lines in input order, one per page. */
  lemma {:induction false} BodyIsConcat(pages: seq<JVal>) returns (lines: seq<string>)
    requires AllRender(pages)
    ensures |lines| == |pages|
    ensures forall i :: 0 <= i < |pages| ==>
      lines[i] == Line(PageFields(pages[i]).value.0, PageFields(pages[i]).value.1)
    ensures ReportBody(pages) == Success(Concat(lines))
  {
    if pages == [] {
      lines := [];
    } else {
      assert AllRender(pages[1..]) by {
        forall i | 0 <= i < |pages[1..]| ensures PageFields(pages[1..][i]).Success? {
          assert pages[1..][i] == pages[i + 1];
        }
      }
      var rest := BodyIsConcat(pages[1..]);
      lines := [Line(PageFields(pages[0]).value.0, PageFields(pages[0]).value.1)] + rest;
      assert lines[1..] == rest;
      forall i | 1 <= i < |pages|
        ensures lines[i] == Line(PageFields(pages[i]).value.0, PageFields(pages[i]).value.1)
      {
        assert lines[i] == rest[i - 1] && pages[1..][i - 1] == pages[i];
      }
    }
  }

  /**
   * A non-empty list of readable pages gives the header followed by one
   * `- food: days` line per page, in input order, ending in a newline.
   */
  lemma ReportLayout(response: Result<JVal, string>, pages: seq<JVal>) returns (lines: seq<string>)
    requires ResultsAre(response, pages) && pages != [] && AllRender(pages)
    ensures |lines| == |pages|
    ensures forall i :: 0 <= i < |pages| ==>
      lines[i] == "- " + Str(PageFields(pages[i]).value.0) + ": " + Str(PageFields(pages[i]).value.1) + "\n"
    ensures Summary(response) == Header + Concat(lines)
    ensures Summary(response)[|Summary(response)| - 1] == '\n'
  {
    lines := BodyIsConcat(pages);
    LinesSpelledOut(pages, lines);
    SummaryOfBody(response, pages, Concat(lines));
    LastLineEndsWithNewline(lines);
  }

  lemma LinesSpelledOut(pages: seq<JVal>, lines: seq<string>)
    requires AllRender(pages) && |lines| == |pages|
    requires forall i :: 0 <= i < |pages| ==>
      lines[i] == Line(PageFields(pages[i]).value.0, PageFields(pages[i]).value.1)
    ensures forall i :: 0 <= i < |pages| ==>
      lines[i] == "- " + Str(PageFields(pages[i]).value.0) + ": " + Str(PageFields(pages[i]).value.1) + "\n"
  {
  }

  lemma SummaryOfBody(response: Result<JVal, string>, pages: seq<JVal>, body: string)
    requires ResultsAre(response, pages) && pages != []
    requires ReportBody(pages) == Success(body)
    ensures Summary(response) == Header + body
  {
    OutcomeOfPages(response.value, JList(pages), pages);
  }

  lemma {:induction false} LastLineEndsWithNewline(lines: seq<string>)
    requires lines != []
    requires forall i :: 0 <= i < |lines| ==> lines[i] != [] && lines[i][|lines[i]| - 1] == '\n'
    ensures Concat(lines) != [] && Concat(lines)[|Concat(lines)| - 1] == '\n'
  {
    if |lines| > 1 {
      LastLineEndsWithNewline(lines[1..]);
      assert lines[1..][0] == lines[1];
    } else {
      assert Concat(lines) == lines[0] + Concat([]);
    }
  }

  /** A page whose food and days print without a newline adds exactly one line. */
  predicate SingleLine(page: JVal)
    requires PageFields(page).Success?
  {
    '\n' !in Str(PageFields(page).value.0) && '\n' !in Str(PageFields(page).value.1)
  }

  /** A character occurs nowhere exactly when its count is zero. */
  lemma {:induction false} CountZero(c: char, s: string)
    ensures CountChar(c, s) == 0 <==> c !in s
  {
    if s != [] {
      CountZero(c, s[1..]);
      assert s == [s[0]] + s[1..];
      assert c in s <==> s[0] == c || c in s[1..];
    }
  }

  /** A page line holds its own newline and those of the two texts. */
  lemma LineNewlines(food: JVal, days: JVal)
    ensures CountChar('\n', Line(food, days)) == 1 + CountChar('\n', Str(food)) + CountChar('\n', Str(days))
  {
    CountCharAppend('\n', "- " + Str(food) + ": " + Str(days), "\n");
    CountCharAppend('\n', "- " + Str(food) + ": ", Str(days));
    CountCharAppend('\n', "- " + Str(food), ": ");
    CountCharAppend('\n', "- ", Str(food));
  }

  /** A page line holds exactly one newline when its parts hold none. */
  lemma LineHasOneNewline(food: JVal, days: JVal)
    ensures CountChar('\n', Line(food, days)) == 1 <==> '\n' !in Str(food) && '\n' !in Str(days)
  {
    LineNewlines(food, days);
    CountZero('\n', Str(food));
    CountZero('\n', Str(days));
  }

  /**
   * The page lines hold at least one newline each, and exactly one each
   * in total only when every page is a single line.
   */
  lemma {:induction false} ConcatNewlines(pages: seq<JVal>, lines: seq<string>)
    requires AllRender(pages) && |lines| == |pages|
    requires forall i :: 0 <= i < |pages| ==>
      lines[i] == Line(PageFields(pages[i]).value.0, PageFields(pages[i]).value.1)
    ensures CountChar('\n', Concat(lines)) >= |pages|
    ensures CountChar('\n', Concat(lines)) == |pages| <==> forall i :: 0 <= i < |pages| ==> SingleLine(pages[i])
  {
    if pages != [] {
      LineHasOneNewline(PageFields(pages[0]).value.0, PageFields(pages[0]).value.1);
      LineNewlines(PageFields(pages[0]).value.0, PageFields(pages[0]).value.1);
      CountCharAppend('\n', lines[0], Concat(lines[1..]));
      assert AllRender(pages[1..]) by {
        forall i | 0 <= i < |pages[1..]| ensures PageFields(pages[1..][i]).Success? {
          assert pages[1..][i] == pages[i + 1];
        }
      }
      forall i | 0 <= i < |pages[1..]| ensures lines[1..][i] ==
        Line(PageFields(pages[1..][i]).value.0, PageFields(pages[1..][i]).value.1)
      {
        assert pages[1..][i] == pages[i + 1] && lines[1..][i] == lines[i + 1];
      }
      ConcatNewlines(pages[1..], lines[1..]);
      assert (forall i :: 0 <= i < |pages| ==> SingleLine(pages[i])) <==>
        SingleLine(pages[0]) && forall i :: 0 <= i < |pages[1..]| ==> SingleLine(pages[1..][i])
      by {
        forall i | 0 <= i < |pages[1..]| ensures pages[1..][i] == pages[i + 1] {}
        if SingleLine(pages[0]) && forall i :: 0 <= i < |pages[1..]| ==> SingleLine(pages[1..][i]) {
          forall i | 0 <= i < |pages| ensures SingleLine(pages[i]) {
            if i > 0 { assert SingleLine(pages[1..][i - 1]); }
          }
        }
      }
    }
  }

  /**
   * A non-empty report has exactly 1 + |pages| newlines, the header line
   * and one line per page, if and only if no food or days text holds a
   * newline; it always ends with one.
   */
  lemma ReportLineCount(response: Result<JVal, string>, pages: seq<JVal>)
    requires ResultsAre(response, pages) && pages != [] && AllRender(pages)
    ensures CountChar('\n', Summary(response)) == |pages| + 1 <==>
      forall i :: 0 <= i < |pages| ==> SingleLine(pages[i])
    ensures Summary(response)[|Summary(response)| - 1] == '\n'
  {
    var lines := ReportLayout(response, pages);
    ConcatNewlines(pages, lines);
    CountCharAppend('\n', Header, Concat(lines));
    HeaderHasOneNewline();
  }

  const HeaderTitle: string := "\U{1F371} Morning Fridge Update:"

  lemma HeaderSplits()
    ensures Header == HeaderTitle + "\n" && '\n' !in HeaderTitle
  {
  }

  /** One line of text and its newline. */
  lemma OneLine(t: string)
    requires '\n' !in t
    ensures CountChar('\n', t + "\n") == 1
  {
    CountZero('\n', t);
    CountCharAppend('\n', t, "\n");
    assert CountChar('\n', "\n") == 1;
  }

  lemma HeaderHasOneNewline()
    ensures CountChar('\n', Header) == 1
  {
    HeaderSplits();
    OneLine(HeaderTitle);
  }

  lemma {:induction false} BodyFailsAt(pages: seq<JVal>, j: nat)
    requires j < |pages| && PageFields(pages[j]).Failure?
    requires forall i :: 0 <= i < j ==> PageFields(pages[i]).Success?
    ensures ReportBody(pages) == Failure(PageFields(pages[j]).error)
  {
    if j > 0 {
      assert pages[1..][j - 1] == pages[j];
      forall i | 0 <= i < j - 1 ensures PageFields(pages[1..][i]).Success? {
        assert pages[1..][i] == pages[i + 1];
      }
      BodyFailsAt(pages[1..], j - 1);
      assert ReportLine(pages[0]).Success?;
    } else {
      assert ReportLine(pages[0]) == Failure(PageFields(pages[0]).error);
    }
  }

  /**
   * When page `j` is the first that raises, the whole report is the error
   * text for that exception: no partial report is returned.
   */
  lemma FirstFailingPage(response: Result<JVal, string>, pages: seq<JVal>, j: nat)
    requires ResultsAre(response, pages)
    requires j < |pages| && PageFields(pages[j]).Failure?
    requires forall i :: 0 <= i < j ==> PageFields(pages[i]).Success?
    ensures Summary(response) == ErrorPrefix + Message(PageFields(pages[j]).error)
  {
    BodyFailsAt(pages, j);
    OutcomeOfPages(response.value, JList(pages), pages);
    assert Outcome(response) == Failure(PageFields(pages[j]).error);
  }

  /** A query that raises is reported by its text. */
  lemma QueryFails(text: string)
    ensures Summary(Failure(text)) == ErrorPrefix + text
  {
  }

  // ---------------------------------------------------------------------
  // The field defaults

  /** `food` is "Unknown" when `Food` or its `title` is absent, or the title list is empty. */
  lemma FoodDefaultsToUnknown(p: JVal)
    requires p.JObj?
    requires || At(p, "Food").None?
             || (At(p, "Food").value.JObj? &&
                 (At(At(p, "Food").value, "title").None? ||
                  At(At(p, "Food").value, "title") == Some(JList([]))))
    ensures FoodName(p) == Success(JStr("Unknown"))
  {
  }

  /** `food` is the `text.content` of the first title element. */
  lemma FoodIsFirstTitleContent(p: JVal, titles: seq<JVal>, content: JVal)
    requires At(p, "Food").Some? && At(At(p, "Food").value, "title") == Some(JList(titles))
    requires titles != [] && At(titles[0], "text").Some?
    requires At(At(titles[0], "text").value, "content") == Some(content)
    ensures FoodName(p) == Success(content)
  {
  }

  /** A first title element without `text`, or whose `text` lacks `content`, raises `KeyError`. */
  lemma FoodLookupRaises(p: JVal, titles: seq<JVal>)
    requires At(p, "Food").Some? && At(At(p, "Food").value, "title") == Some(JList(titles))
    requires titles != [] && titles[0].JObj?
    ensures At(titles[0], "text").None? ==> FoodName(p) == Failure(KeyError(KStr("text")))
    ensures At(titles[0], "text").Some? && At(titles[0], "text").value.JObj? &&
            At(At(titles[0], "text").value, "content").None? ==>
            FoodName(p) == Failure(KeyError(KStr("content")))
  {
  }

  /** `days` is "N/A" when `Days Left`, its `formula` or the formula's `string` is absent. */
  lemma DaysDefaultsToNA(p: JVal)
    requires p.JObj?
    requires || At(p, "Days Left").None?
             || (At(p, "Days Left").value.JObj? &&
                 (At(At(p, "Days Left").value, "formula").None? ||
                  (At(At(p, "Days Left").value, "formula").value.JObj? &&
                   At(At(At(p, "Days Left").value, "formula").value, "string").None?)))
    ensures DaysLeft(p) == Success(JStr("N/A"))
  {
  }

  /** `days` is the formula's `string` value when all three levels are present. */
  lemma DaysIsFormulaString(p: JVal, days: JVal)
    requires At(p, "Days Left").Some? && At(At(p, "Days Left").value, "formula").Some?
    requires At(At(At(p, "Days Left").value, "formula").value, "string") == Some(days)
    ensures DaysLeft(p) == Success(days)
  {
  }

  /** A page without `properties` renders as "- Unknown: N/A". */
  lemma PageWithoutProperties(page: JVal)
    requires page.JObj? && At(page, "properties").None?
    ensures ReportLine(page) == Success("- Unknown: N/A\n")
  {
    assert PageFields(page) == Success((JStr("Unknown"), JStr("N/A")));
    assert Line(JStr("Unknown"), JStr("N/A")) == "- " + "Unknown" + ": " + "N/A" + "\n";
    assert ReportLine(page) == Success(Line(JStr("Unknown"), JStr("N/A")));
    var joined := "- " + "Unknown" + ": " + "N/A" + "\n";
    assert |joined| == |"- Unknown: N/A\n"|;
    assert forall i :: 0 <= i < |joined| ==> joined[i] == "- Unknown: N/A\n"[i];
    assert joined == "- Unknown: N/A\n";
  }

  /** A one-page report is the header and that page's line. */
  lemma OnePageReport(page: JVal, food: string, days: string)
    requires PageFields(page) == Success((JStr(food), JStr(days)))
    ensures Summary(Success(JObj([Field("results", JList([page]))]))) == Header + ("- " + food + ": " + days + "\n")
  {
    var lines := ReportLayout(Success(JObj([Field("results", JList([page]))])), [page]);
    assert Concat(lines) == lines[0] + Concat([]);
  }

  function PastaPage(): JVal {
    var food := JObj([Field("title", JList([JObj([Field("text", JObj([Field("content", JStr("Pasta"))]))])]))]);
    var days := JObj([Field("formula", JObj([Field("string", JStr("2 days"))]))]);
    JObj([Field("properties", JObj([Field("Food", food), Field("Days Left", days)]))])
  }

  lemma PastaFields()
    ensures PageFields(PastaPage()) == Success((JStr("Pasta"), JStr("2 days")))
  {
    var food := JObj([Field("title", JList([JObj([Field("text", JObj([Field("content", JStr("Pasta"))]))])]))]);
    var days := JObj([Field("formula", JObj([Field("string", JStr("2 days"))]))]);
    var props := JObj([Field("Food", food), Field("Days Left", days)]);
    TwoEntries("Food", food, "Days Left", days);
    assert FoodName(props) == Success(JStr("Pasta"));
    assert DaysLeft(props) == Success(JStr("2 days"));
  }

  lemma PastaLine()
    ensures "- " + "Pasta" + ": " + "2 days" + "\n" == "- Pasta: 2 days\n"
  {
    var joined := "- " + "Pasta" + ": " + "2 days" + "\n";
    assert forall i :: 0 <= i < |joined| ==> joined[i] == "- Pasta: 2 days\n"[i];
  }

  /**
   * A single page whose food is "Pasta" and whose days text is "2 days"
   * gives the header and the line "- Pasta: 2 days".
   */
  lemma PastaReport()
    ensures Summary(Success(JObj([Field("results", JList([PastaPage()]))]))) == Header + "- Pasta: 2 days\n"
  {
    PastaFields();
    OnePageReport(PastaPage(), "Pasta", "2 days");
    PastaLine();
  }
}
