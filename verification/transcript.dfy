/** The downloadable transcript (app.py:466): every history entry rendered as
    `speaker: message`, joined by blank lines, in history order. */
module Transcript {
  import opened Strings
  import opened Interview

  const Separator: string := "\n\n"

  /** The label the history stores for each speaker. */
  function SpeakerName(sp: Speaker): string {
    match sp
    case AI => "AI"
    case Human => "Human"
  }

  /** One rendered entry. */
  function Line(e: Entry): string {
    SpeakerName(e.speaker) + ": " + e.message
  }

  /** The rendered entries, in history order. */
  function Lines(h: seq<Entry>): seq<string> {
    seq(|h|, k requires 0 <= k < |h| => Line(h[k]))
  }

  /** The transcript text. Every rendered entry is non-empty, so the transcript is
      empty exactly when the history is. */
  function Export(h: seq<Entry>): (r: string)
    ensures r == "" <==> |h| == 0
  {
    var ls := Lines(h);
    if |h| > 0 then
      JoinStartsWithFirst(Separator, ls);
      assert |ls[0]| >= 4;
      Join(Separator, ls)
    else
      Join(Separator, ls)
  }

  /** A joined list starts with its first part. */
  lemma JoinStartsWithFirst(sep: string, parts: seq<string>)
    requires |parts| > 0
    ensures parts[0] <= Join(sep, parts)
  {
    if |parts| > 1 {
      assert Join(sep, parts) == parts[0] + (sep + Join(sep, parts[1..]));
    }
  }

  /** The transcript opens with the first entry's line. */
  lemma ExportStartsWithFirst(h: seq<Entry>)
    requires |h| > 0
    ensures Line(h[0]) <= Export(h)
  {
    JoinStartsWithFirst(Separator, Lines(h));
  }

  /** Appending an entry to the history appends a blank line and that entry's line
      to the transcript. */
  lemma ExportSnoc(h: seq<Entry>, e: Entry)
    requires |h| > 0
    ensures Export(h + [e]) == Export(h) + Separator + Line(e)
  {
    assert Lines(h + [e]) == Lines(h) + [Line(e)];
    JoinSnoc(Separator, Lines(h), Line(e));
  }

  /** A later transcript extends an earlier one: history only grows at the end, so
      the text exported earlier stays at the front. */
  lemma {:induction false} ExportExtends(h: seq<Entry>, more: seq<Entry>)
    ensures Export(h) <= Export(h + more)
    decreases |more|
  {
    if |more| == 0 {
      assert h + more == h;
    } else {
      var init := more[..|more| - 1];
      var last := more[|more| - 1];
      assert h + more == (h + init) + [last];
      ExportExtends(h, init);
      if |h + init| == 0 {
        assert |h| == 0;
      } else {
        ExportSnoc(h + init, last);
        assert Export(h + init) <= Export(h + more);
      }
    }
  }

  /** The transcript built line by line, as a writer would stream it. */
  method ExportTranscript(h: seq<Entry>) returns (out: string)
    ensures out == Export(h)
  {
    out := "";
    var i := 0;
    while i < |h|
      invariant 0 <= i <= |h|
      invariant out == Export(h[..i])
    {
      assert h[..i + 1] == h[..i] + [h[i]];
      if i == 0 {
        out := Line(h[0]);
      } else {
        ExportSnoc(h[..i], h[i]);
        out := out + Separator + Line(h[i]);
      }
      i := i + 1;
    }
    assert h[..|h|] == h;
  }

  /** A one-entry history exports as that entry's line alone. */
  lemma ExportSingle(e: Entry)
    ensures Export([e]) == Line(e)
  {
    assert Lines([e]) == [Line(e)];
  }

  /** A three-entry history exports as its three lines separated by blank lines. */
  lemma ExportThree(a: Entry, b: Entry, c: Entry)
    ensures Export([a, b, c]) == Line(a) + Separator + (Line(b) + Separator + Line(c))
  {
    var ls := Lines([a, b, c]);
    assert ls[1..] == [Line(b), Line(c)];
    assert ls[1..][1..] == [Line(c)];
    assert Join(Separator, ls[1..]) == Line(b) + Separator + Line(c);
  }

  /** A short exchange, rendered: the labelled lines, separated by blank lines. */
  lemma ExportExample()
    ensures Export([Entry(AI, "Hello"), Entry(Human, "SUM function"), Entry(AI, "Score: 8/10")])
            == "AI: Hello" + "\n\n" + ("Human: SUM function" + "\n\n" + "AI: Score: 8/10")
  {
    var a, b, c := Entry(AI, "Hello"), Entry(Human, "SUM function"), Entry(AI, "Score: 8/10");
    ExportThree(a, b, c);
    assert Line(a) == "AI: Hello" && Line(b) == "Human: SUM function" && Line(c) == "AI: Score: 8/10";
  }
}
