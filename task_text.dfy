/**
 * The string functions of src/core/task.ts: the title rule, JavaScript's
 * `trim`, the per-terminal output accumulator and its rendering for context.
 */
module TaskText {

  /** The characters JavaScript's String.prototype.trim removes: white space and line terminators. */
  predicate IsJsWhitespace(c: char)
  {
    || c == '\t' || c == '\n' || c == '\U{B}' || c == '\U{C}' || c == '\r' || c == ' '
    || c == '\U{A0}' || c == '\U{1680}' || ('\U{2000}' <= c <= '\U{200A}')
    || c == '\U{2028}' || c == '\U{2029}' || c == '\U{202F}' || c == '\U{205F}'
    || c == '\U{3000}' || c == '\U{FEFF}'
  }

  /** `s.split('\n')[0]`: everything before the first line feed. */
  function FirstLine(s: string): (r: string)
    ensures r <= s
    ensures '\n' !in r
    ensures |r| < |s| ==> s[|r|] == '\n'
  {
    if s == [] || s[0] == '\n' then [] else [s[0]] + FirstLine(s[1..])
  }

  /** Drops leading white space. */
  function TrimStart(s: string): (r: string)
    ensures |r| <= |s| && r == s[|s| - |r|..]
    ensures forall i :: 0 <= i < |s| - |r| ==> IsJsWhitespace(s[i])
    ensures r != [] ==> !IsJsWhitespace(r[0])
  {
    if s != [] && IsJsWhitespace(s[0]) then TrimStart(s[1..]) else s
  }

  /** Drops trailing white space. */
  function TrimEnd(s: string): (r: string)
    ensures r <= s
    ensures forall i :: |r| <= i < |s| ==> IsJsWhitespace(s[i])
    ensures r != [] ==> !IsJsWhitespace(r[|r| - 1])
  {
    if s != [] && IsJsWhitespace(s[|s| - 1]) then TrimEnd(s[..|s| - 1]) else s
  }

  /** String.prototype.trim. */
  function Trim(s: string): string
  {
    TrimEnd(TrimStart(s))
  }

  /** A string is empty after trimming exactly when all of its characters are white space. */
  lemma TrimEmptyIff(s: string)
    ensures Trim(s) == [] <==> forall i :: 0 <= i < |s| ==> IsJsWhitespace(s[i])
  {
    var t := TrimStart(s);
    if Trim(s) == [] {
      forall i | 0 <= i < |s|
        ensures IsJsWhitespace(s[i])
      {
        if i >= |s| - |t| {
          assert s[i] == t[i - (|s| - |t|)];
        }
      }
    } else {
      var r := Trim(s);
      assert !IsJsWhitespace(r[0]) && r[0] == t[0] == s[|s| - |t|];
    }
  }

  const TitleLimit: nat := 30
  const DefaultTitle: string := "New Task"

  /** generateTitle: the trimmed first line, cut to 27 characters plus "..." when longer than 30. */
  function GenerateTitle(prompt: string): (title: string)
    ensures |title| <= TitleLimit
    ensures '\n' !in title
  {
    var line := Trim(FirstLine(prompt));
    if |line| <= TitleLimit then line else line[..27] + "..."
  }

  /** The title is the trimmed first line itself when that fits, and otherwise its first 27 characters and an ellipsis. */
  lemma TitleFromFirstLine(prompt: string)
    ensures var line := Trim(FirstLine(prompt)); var title := GenerateTitle(prompt);
      && (|line| <= TitleLimit ==> title == line)
      && (|line| > TitleLimit ==> |title| == TitleLimit && title[..27] == line[..27] && title[27..] == "...")
      && (title != [] && |line| <= TitleLimit ==> !IsJsWhitespace(title[0]) && !IsJsWhitespace(title[|title| - 1]))
  {
  }

  // ---------------------------------------------------------------- terminal outputs

  /** The `terminalOutputs` Map: its keys in insertion order and the text stored under each. */
  datatype Outputs = Outputs(order: seq<string>, text: map<string, string>)

  /** A JavaScript Map's keys are listed once each, in insertion order. */
  ghost predicate WellFormed(o: Outputs)
  {
    && (forall i, j :: 0 <= i < j < |o.order| ==> o.order[i] != o.order[j])
    && (forall id :: id in o.order <==> id in o.text)
  }

  /** The terminal callback: the chunk is appended to the terminal's text; a new terminal goes last. */
  function Deliver(o: Outputs, terminalId: string, chunk: string): (r: Outputs)
    ensures WellFormed(o) ==> WellFormed(r)
    ensures terminalId in r.text
    ensures r.text[terminalId] == (if terminalId in o.text then o.text[terminalId] else "") + chunk
    ensures r.order == (if terminalId in o.text then o.order else o.order + [terminalId])
    ensures forall id :: id != terminalId ==> (id in r.text <==> id in o.text)
    ensures forall id :: id != terminalId && id in o.text ==> r.text[id] == o.text[id]
  {
    var current := if terminalId in o.text then o.text[terminalId] else "";
    Outputs(if terminalId in o.text then o.order else o.order + [terminalId], o.text[terminalId := current + chunk])
  }

  /** One delivery of the terminal manager's output callback. */
  datatype Chunk = Chunk(terminalId: string, text: string)

  /** The accumulator after the chunks, delivered in order to an empty one. */
  function DeliverAll(chunks: seq<Chunk>): Outputs
  {
    if chunks == [] then Outputs([], map[])
    else
      var last := chunks[|chunks| - 1];
      Deliver(DeliverAll(chunks[..|chunks| - 1]), last.terminalId, last.text)
  }

  /** The texts of the chunks for one terminal, concatenated in delivery order. */
  function Delivered(chunks: seq<Chunk>, terminalId: string): string
  {
    if chunks == [] then ""
    else
      var last := chunks[|chunks| - 1];
      Delivered(chunks[..|chunks| - 1], terminalId) + (if last.terminalId == terminalId then last.text else "")
  }

  /** The terminal ids of the chunks, each at its first occurrence. */
  function FirstSeen(chunks: seq<Chunk>): seq<string>
  {
    if chunks == [] then []
    else
      var prev := FirstSeen(chunks[..|chunks| - 1]);
      var id := chunks[|chunks| - 1].terminalId;
      if id in prev then prev else prev + [id]
  }

  /** A terminal that never spoke has no delivered text. */
  lemma {:induction false} DeliveredSilent(chunks: seq<Chunk>, terminalId: string)
    requires terminalId !in FirstSeen(chunks)
    ensures Delivered(chunks, terminalId) == ""
  {
    if chunks != [] {
      DeliveredSilent(chunks[..|chunks| - 1], terminalId);
    }
  }

  /** Every terminal that spoke is listed. */
  lemma {:induction false} FirstSeenCovers(chunks: seq<Chunk>, k: nat)
    requires k < |chunks|
    ensures chunks[k].terminalId in FirstSeen(chunks)
  {
    if k < |chunks| - 1 {
      FirstSeenCovers(chunks[..|chunks| - 1], k);
      assert chunks[..|chunks| - 1][k] == chunks[k];
    }
  }

  /**
   * Each terminal's stored text is the in-order concatenation of every chunk
   * delivered for it, and terminals are listed once each, in the order they
   * first spoke.
   */
  lemma {:induction false} DeliverAllCollects(chunks: seq<Chunk>)
    ensures var o := DeliverAll(chunks);
      && WellFormed(o)
      && o.order == FirstSeen(chunks)
      && (forall id :: id in o.text ==> o.text[id] == Delivered(chunks, id))
  {
    if chunks != [] {
      var init := chunks[..|chunks| - 1];
      var last := chunks[|chunks| - 1];
      DeliverAllCollects(init);
      if last.terminalId !in DeliverAll(init).text {
        DeliveredSilent(init, last.terminalId);
      }
    }
  }

  /** One block of getTerminalOutputsForContext. */
  function Block(terminalId: string, output: string): string
  {
    "\n---Terminal: " + terminalId + "---\n" + output + "\n"
  }

  /** `output.trim().length > 0` fails. */
  predicate IsBlank(output: string)
  {
    Trim(output) == []
  }

  /** The blocks of the terminals in `order` whose output is not blank, in that order. */
  function Render(order: seq<string>, text: map<string, string>): string
    requires forall id :: id in order ==> id in text
  {
    if order == [] then ""
    else
      var id := order[|order| - 1];
      Render(order[..|order| - 1], text) + (if IsBlank(text[id]) then "" else Block(id, text[id]))
  }

  /** The rendering is empty exactly when every terminal's output is blank. */
  lemma {:induction false} RenderEmptyIff(order: seq<string>, text: map<string, string>)
    requires forall id :: id in order ==> id in text
    ensures Render(order, text) == "" <==> forall id :: id in order ==> IsBlank(text[id])
  {
    if order != [] {
      var init := order[..|order| - 1];
      var id := order[|order| - 1];
      assert forall x :: x in init ==> x in order;
      RenderEmptyIff(init, text);
      if !IsBlank(text[id]) {
        assert |Block(id, text[id])| > 0;
      }
      assert forall x :: x in order ==> x in init || x == id;
    }
  }
}
