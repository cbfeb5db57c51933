/**
 * `notify(title, message)` of `call_alert/notification.py`: refuse a title or
 * message holding a double quote, then hand an AppleScript line to osascript.
 * The exit status osascript returns is an input.
 */
module Notification {
  import opened Text
  import opened Trace

  const TitleQuoteText := "Title cannot contain double quotes"
  const MessageQuoteText := "Message cannot contain double quotes"

  /** The AppleScript line: the message and the title inside double quotes. */
  function Script(title: string, message: string): string {
    "display notification \"" + message + "\" with title \"" + title + "\" sound name \"default\""
  }

  /** The template adds six double quotes to those of its fields, whatever
      the fields hold. */
  lemma ScriptQuoteCount(title: string, message: string)
    ensures multiset(Script(title, message))['"'] == 6 + multiset(title)['"'] + multiset(message)['"']
  {
    TemplateQuotes();
    var a, b, c := "display notification \"", "\" with title \"", "\" sound name \"default\"";
    assert Script(title, message) == a + message + b + title + c;
  }

  /** The double quotes in each literal piece of the script. */
  lemma TemplateQuotes()
    ensures multiset("display notification \"")['"'] == 1
    ensures multiset("\" with title \"")['"'] == 2
    ensures multiset("\" sound name \"default\"")['"'] == 3
  {
    OpeningQuotes();
    MiddleQuotes();
    ClosingQuotes();
  }

  lemma QuoteFree(s: string)
    requires forall j :: 0 <= j < |s| ==> s[j] != '"'
    ensures multiset(s)['"'] == 0
  {
    assert '"' !in s;
  }

  /** Appending quote-free text and a double quote adds one double quote. */
  lemma AppendQuoted(x: string, s: string)
    requires forall j :: 0 <= j < |s| ==> s[j] != '"'
    ensures multiset(x + s + ['"'])['"'] == multiset(x)['"'] + 1
  {
    QuoteFree(s);
    assert multiset(x + s + ['"']) == multiset(x) + multiset(s) + multiset(['"']);
  }

  lemma OpeningQuotes()
    ensures multiset("display notification \"")['"'] == 1
  {
    OpeningSplit();
    OpeningQuoteFree();
    AppendQuoted([], "display notification ");
  }

  lemma OpeningSplit()
    ensures "display notification \"" == [] + "display notification " + ['"']
  {
  }

  lemma OpeningQuoteFree()
    ensures forall j :: 0 <= j < |"display notification "| ==> "display notification "[j] != '"'
  {
  }

  lemma MiddleQuotes()
    ensures multiset("\" with title \"")['"'] == 2
  {
    var b := " with title ";
    assert "\" with title \"" == ([] + [] + ['"']) + b + ['"'];
    AppendQuoted([], []);
    AppendQuoted([] + [] + ['"'], b);
  }

  lemma ClosingQuotes()
    ensures multiset("\" sound name \"default\"")['"'] == 3
  {
    ClosingSplit();
    ClosingHeadQuotes();
    DefaultQuoteFree();
    AppendQuoted("\" sound name \"", "default");
  }

  lemma ClosingSplit()
    ensures "\" sound name \"default\"" == "\" sound name \"" + "default" + ['"']
  {
  }

  lemma ClosingHeadQuotes()
    ensures multiset("\" sound name \"")['"'] == 2
  {
    var c := " sound name ";
    assert "\" sound name \"" == ([] + [] + ['"']) + c + ['"'];
    AppendQuoted([], []);
    AppendQuoted([] + [] + ['"'], c);
  }

  lemma DefaultQuoteFree()
    ensures forall j :: 0 <= j < |"default"| ==> "default"[j] != '"'
  {
  }

  /** The pieces of the script between its double quotes, in order. */
  function ScriptFields(title: string, message: string): seq<string> {
    ["display notification ", message, " with title ", title, " sound name ", "default", ""]
  }

  /** `notify(title, message)`, where osascript would exit with `exitStatus`. */
  function Notify(title: string, message: string, exitStatus: int): (r: Step)
    ensures r.effects == [] <==> '"' in title || '"' in message
    ensures '"' in title ==> r.outcome == Raised(AssertionFailed(TitleQuoteText))
    ensures '"' !in title && '"' in message ==> r.outcome == Raised(AssertionFailed(MessageQuoteText))
    ensures r.effects != [] ==> r.effects == [Osascript(Script(title, message))]
    ensures r.effects != [] ==> (r.outcome == Done <==> exitStatus == 0)
    ensures r.effects != [] && exitStatus != 0 ==>
      r.outcome == Raised(ProcessFailed(Script(title, message), exitStatus))
  {
    if '"' in title then Step([], Raised(AssertionFailed(TitleQuoteText)))
    else if '"' in message then Step([], Raised(AssertionFailed(MessageQuoteText)))
    else
      var script := Script(title, message);
      Step([Osascript(script)], if exitStatus == 0 then Done else Raised(ProcessFailed(script, exitStatus)))
  }

  /** With quote-free title and message the script splits, at its double
      quotes, back into the template text, the message and the title. */
  lemma ScriptRoundTrip(title: string, message: string)
    requires '"' !in title && '"' !in message
    ensures Split(Script(title, message), '"') == ScriptFields(title, message)
  {
    var f := ScriptFields(title, message);
    ScriptIsJoin(title, message);
    NoQuoteInTemplate(f);
    SplitJoin(f, '"');
  }

  lemma NoQuoteInTemplate(f: seq<string>)
    requires |f| == 7 && '"' !in f[1] && '"' !in f[3]
    requires f[0] == "display notification " && f[2] == " with title "
    requires f[4] == " sound name " && f[5] == "default" && f[6] == ""
    ensures forall i :: 0 <= i < |f| ==> '"' !in f[i]
  {
    forall i | 0 <= i < |f| ensures '"' !in f[i] {
      if i == 0 || i == 2 || i == 4 || i == 5 {
        forall j | 0 <= j < |f[i]| ensures f[i][j] != '"' {}
      }
    }
  }

  lemma ScriptIsJoin(title: string, message: string)
    ensures Join(ScriptFields(title, message), '"') == Script(title, message)
  {
    var f := ScriptFields(title, message);
    var q := '"';
    assert f[1..][1..] == f[2..] && f[2..][1..] == f[3..] && f[3..][1..] == f[4..];
    assert f[4..][1..] == f[5..] && f[5..][1..] == f[6..];
    JoinSeven(f, q);
    TemplatePieces();
    Regroup(f[0], message, f[2], title, f[4], f[5], q);
  }

  /** The literal text of the script, cut at its double quotes. */
  lemma TemplatePieces()
    ensures "display notification \"" == "display notification " + ['"']
    ensures "\" with title \"" == ['"'] + " with title " + ['"']
    ensures "\" sound name \"default\"" == ['"'] + " sound name " + ['"'] + "default" + ['"']
  {
  }

  lemma JoinSeven(f: seq<string>, q: char)
    requires |f| == 7
    ensures Join(f, q) == f[0] + ([q] + (f[1] + ([q] + (f[2] + ([q] + (f[3] + ([q] + (f[4] + ([q] + (f[5] + ([q] + f[6])))))))))))
  {
    assert Join(f[6..], q) == f[6];
    assert Join(f[5..], q) == f[5] + [q] + Join(f[6..], q);
    assert Join(f[4..], q) == f[4] + [q] + Join(f[5..], q);
    assert Join(f[3..], q) == f[3] + [q] + Join(f[4..], q);
    assert Join(f[2..], q) == f[2] + [q] + Join(f[3..], q);
    assert Join(f[1..], q) == f[1] + [q] + Join(f[2..], q);
  }

  lemma Regroup(a: string, m: string, b: string, t: string, c: string, d: string, q: char)
    ensures (a + [q]) + m + ([q] + b + [q]) + t + ([q] + c + [q] + d + [q])
      == a + ([q] + (m + ([q] + (b + ([q] + (t + ([q] + (c + ([q] + (d + ([q] + "")))))))))))
  {
  }

  /** A script that notify launches holds exactly six double quotes, the two
      around each of the message, the title and the sound name. */
  lemma ScriptQuotes(title: string, message: string)
    requires '"' !in title && '"' !in message
    ensures multiset(Script(title, message))['"'] == 6
  {
    ScriptRoundTrip(title, message);
  }

  /** Every script `Notify` hands to osascript is well quoted. */
  predicate WellQuoted(e: Effect) {
    e.Osascript? ==> multiset(e.script)['"'] == 6
  }

  lemma NotifyLaunchesWellQuoted(title: string, message: string, exitStatus: int)
    ensures forall i :: 0 <= i < |Notify(title, message, exitStatus).effects| ==>
      WellQuoted(Notify(title, message, exitStatus).effects[i])
  {
    var r := Notify(title, message, exitStatus);
    if r.effects != [] {
      assert r.effects == [Osascript(Script(title, message))];
      ScriptQuotes(title, message);
    }
  }
}
