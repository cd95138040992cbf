/**
  The Claude session scanner (src/lib/claude-sessions.ts): the line fold that turns a transcript
  into session statistics, and the transaction that upserts the scanned sessions.
 */
module Transcripts {
  import opened Options

  // ---- Lines ------------------------------------------------------------------

  /** Token usage; an absent count reads as zero. */
  datatype Usage = Usage(input: int, cacheRead: int, cacheCreation: int, output: int)

  /** message.content */
  datatype Content = NoContent | Text(text: string) | Blocks(types: seq<string>)

  datatype Message = Message(content: Content, model: string, usage: Option<Usage>)

  /** A parsed line; an empty string stands for an unset field, which the code treats alike. */
  datatype Entry = Entry(
    kind: string, sessionId: string, timestamp: string, sidechain: bool,
    gitBranch: string, cwd: string, message: Option<Message>)

  /** A line that does not parse is skipped; one like `null`, which cannot be inspected, throws. */
  datatype Line = Unparsable | Throwing | Parsed(entry: Entry)

  // ---- The fold ---------------------------------------------------------------

  datatype Stats = Stats(
    sessionId: string, gitBranch: string, projectPath: string, firstMessageAt: string,   // first wins
    lastMessageAt: string, lastUserPrompt: Option<string>, model: string,                // last wins
    userMessages: int, assistantMessages: int, toolUses: int, inputTokens: int, outputTokens: int)

  const ZERO := Stats("", "", "", "", "", None, "", 0, 0, 0, 0, 0)

  function First(a: string, b: string): string { if a != "" then a else b }
  function Last(a: string, b: string): string { if b != "" then b else a }
  function LastSome(a: Option<string>, b: Option<string>): Option<string> { if b.Some? then b else a }

  function Prefix500(s: string): (r: string)
    ensures r <= s && (r == s || |r| == 500) && |r| <= 500
  {
    if |s| <= 500 then s else s[..500]
  }

  /** How many blocks are tool uses. */
  function ToolUses(types: seq<string>): nat {
    |set i: nat | i < |types| && types[i] == "tool_use"|
  }

  /** What every parsed line contributes, sidechains included. */
  function ReadMeta(s: Stats, e: Entry): Stats {
    s.(sessionId := First(s.sessionId, e.sessionId),
       gitBranch := First(s.gitBranch, e.gitBranch),
       projectPath := First(s.projectPath, e.cwd),
       firstMessageAt := First(s.firstMessageAt, e.timestamp),
       lastMessageAt := Last(s.lastMessageAt, e.timestamp))
  }

  function ReadUser(s: Stats, msg: Message): Stats {
    s.(userMessages := s.userMessages + 1,
       lastUserPrompt :=
         if msg.content.Text? && |msg.content.text| > 0 then Some(Prefix500(msg.content.text)) else s.lastUserPrompt)
  }

  /** Tokens read, cache reads and cache creations included. */
  function InputTokens(usage: Usage): int { usage.input + usage.cacheRead + usage.cacheCreation }

  function ReadAssistant(s: Stats, msg: Message): Stats {
    s.(assistantMessages := s.assistantMessages + 1,
       model := Last(s.model, msg.model),
       inputTokens := s.inputTokens + (if msg.usage.Some? then InputTokens(msg.usage.value) else 0),
       outputTokens := s.outputTokens + (if msg.usage.Some? then msg.usage.value.output else 0),
       toolUses := s.toolUses + (if msg.content.Blocks? then ToolUses(msg.content.types) else 0))
  }

  function ReadMessage(s: Stats, e: Entry): Stats {
    if e.sidechain || e.message.None? then s
    else if e.kind == "user" then ReadUser(s, e.message.value)
    else if e.kind == "assistant" then ReadAssistant(s, e.message.value)
    else s
  }

  /** The body of the line loop. */
  function Read(s: Stats, line: Line): Stats {
    if line.Parsed? then ReadMessage(ReadMeta(s, line.entry), line.entry) else s
  }

  function Fold(s: Stats, lines: seq<Line>): Stats {
    if lines == [] then s else Read(Fold(s, lines[..|lines| - 1]), lines[|lines| - 1])
  }

  /** Two stretches of one transcript put together. */
  function Combine(a: Stats, b: Stats): Stats {
    Stats(First(a.sessionId, b.sessionId), First(a.gitBranch, b.gitBranch), First(a.projectPath, b.projectPath),
          First(a.firstMessageAt, b.firstMessageAt),
          Last(a.lastMessageAt, b.lastMessageAt), LastSome(a.lastUserPrompt, b.lastUserPrompt), Last(a.model, b.model),
          a.userMessages + b.userMessages, a.assistantMessages + b.assistantMessages, a.toolUses + b.toolUses,
          a.inputTokens + b.inputTokens, a.outputTokens + b.outputTokens)
  }

  lemma MetaCombines(a: Stats, b: Stats, e: Entry)
    ensures ReadMeta(Combine(a, b), e) == Combine(a, ReadMeta(b, e))
  {
  }

  lemma MessageCombines(a: Stats, b: Stats, e: Entry)
    ensures ReadMessage(Combine(a, b), e) == Combine(a, ReadMessage(b, e))
  {
    hide First, ToolUses;
  }

  lemma ReadCombines(a: Stats, b: Stats, line: Line)
    ensures Read(Combine(a, b), line) == Combine(a, Read(b, line))
  {
    hide ReadMeta, ReadMessage, Combine;
    if line.Parsed? {
      MetaCombines(a, b, line.entry);
      MessageCombines(a, ReadMeta(b, line.entry), line.entry);
    }
  }

  /** Reading a transcript cut at any line is combining its two halves, each read from scratch. */
  lemma {:induction false} SplitAnywhere(a: seq<Line>, b: seq<Line>)
    ensures Fold(ZERO, a + b) == Combine(Fold(ZERO, a), Fold(ZERO, b))
    decreases |b|
  {
    if b == [] {
      assert a + b == a;
    } else {
      var n := |b| - 1;
      assert (a + b)[..|a| + n] == a + b[..n];
      SplitAnywhere(a, b[..n]);
      ReadCombines(Fold(ZERO, a), Fold(ZERO, b[..n]), b[n]);
    }
  }

  /** The pieces may be combined in any grouping, and an empty piece adds nothing. */
  lemma CombineMonoid(a: Stats, b: Stats, c: Stats)
    ensures Combine(Combine(a, b), c) == Combine(a, Combine(b, c))
    ensures Combine(ZERO, a) == a && Combine(a, ZERO) == a
  {
  }

  predicate Counted(line: Line, kind: string) {
    line.Parsed? && !line.entry.sidechain && line.entry.message.Some? && line.entry.kind == kind
  }

  function CountLines(lines: seq<Line>, kind: string): nat {
    if lines == [] then 0
    else CountLines(lines[..|lines| - 1], kind) + if Counted(lines[|lines| - 1], kind) then 1 else 0
  }

  /** The message counts are those of the lines that are not sidechains. */
  lemma {:induction false} MessagesCounted(lines: seq<Line>)
    ensures Fold(ZERO, lines).userMessages == CountLines(lines, "user")
    ensures Fold(ZERO, lines).assistantMessages == CountLines(lines, "assistant")
  {
    if lines != [] {
      MessagesCounted(lines[..|lines| - 1]);
    }
  }

  // What each line carries for each field; the last three skip sidechains.
  function LineId(line: Line): string { if line.Parsed? then line.entry.sessionId else "" }
  function LineBranch(line: Line): string { if line.Parsed? then line.entry.gitBranch else "" }
  function LineDir(line: Line): string { if line.Parsed? then line.entry.cwd else "" }
  function LineTime(line: Line): string { if line.Parsed? then line.entry.timestamp else "" }
  function LineModel(line: Line): string { if Counted(line, "assistant") then line.entry.message.value.model else "" }

  function LinePrompt(line: Line): string {
    if Counted(line, "user") && line.entry.message.value.content.Text? then line.entry.message.value.content.text
    else ""
  }

  function LineUsage(line: Line): Usage {
    if Counted(line, "assistant") && line.entry.message.value.usage.Some? then line.entry.message.value.usage.value
    else Usage(0, 0, 0, 0)
  }

  function LineInput(line: Line): int {
    LineUsage(line).input + LineUsage(line).cacheRead + LineUsage(line).cacheCreation
  }

  function LineOutput(line: Line): int { LineUsage(line).output }

  function LineToolUses(line: Line): int {
    if Counted(line, "assistant") && line.entry.message.value.content.Blocks?
    then ToolUses(line.entry.message.value.content.types) else 0
  }

  /** One field along the lines. */
  function Values(lines: seq<Line>, field: Line -> string): (r: seq<string>)
    ensures |r| == |lines|
  {
    seq(|lines|, i requires 0 <= i < |lines| => field(lines[i]))
  }

  /** The value at i, none before it carrying any; the empty string if none carries any. */
  ghost predicate IsFirst(values: seq<string>, v: string) {
    if v == "" then forall i | 0 <= i < |values| :: values[i] == ""
    else exists i :: 0 <= i < |values| && values[i] == v && forall j | 0 <= j < i :: values[j] == ""
  }

  ghost predicate IsLast(values: seq<string>, v: string) {
    if v == "" then forall i | 0 <= i < |values| :: values[i] == ""
    else exists i :: 0 <= i < |values| && values[i] == v && forall j | i < j < |values| :: values[j] == ""
  }

  lemma FirstExtends(before: seq<string>, v: string, next: string)
    requires IsFirst(before, v)
    ensures IsFirst(before + [next], First(v, next))
  {
    var values := before + [next];
    if v != "" {
      var i :| 0 <= i < |before| && before[i] == v && forall j | 0 <= j < i :: before[j] == "";
      assert values[i] == v;
    } else if next != "" {
      assert values[|before|] == next;
    }
  }

  lemma LastExtends(before: seq<string>, v: string, next: string)
    requires IsLast(before, v)
    ensures IsLast(before + [next], Last(v, next))
  {
    var values := before + [next];
    if next != "" {
      assert values[|before|] == next;
    } else if v != "" {
      var i :| 0 <= i < |before| && before[i] == v && forall j | i < j < |before| :: before[j] == "";
      assert values[i] == v;
    }
  }

  lemma ValuesExtend(lines: seq<Line>, field: Line -> string)
    requires lines != []
    ensures Values(lines, field) == Values(lines[..|lines| - 1], field) + [field(lines[|lines| - 1])]
  {
  }

  /** Session id, branch, directory and start time are those of the first line carrying one. */
  lemma {:induction false} FirstWins(lines: seq<Line>)
    ensures var r := Fold(ZERO, lines);
            && IsFirst(Values(lines, LineId), r.sessionId) && IsFirst(Values(lines, LineBranch), r.gitBranch)
            && IsFirst(Values(lines, LineDir), r.projectPath) && IsFirst(Values(lines, LineTime), r.firstMessageAt)
  {
    hide IsFirst, Values;
    if lines == [] {
      NothingCarried();
    } else {
      var before, line := lines[..|lines| - 1], lines[|lines| - 1];
      FirstWins(before);
      var p := Fold(ZERO, before);
      ValuesExtend(lines, LineId);
      ValuesExtend(lines, LineBranch);
      ValuesExtend(lines, LineDir);
      ValuesExtend(lines, LineTime);
      FirstExtends(Values(before, LineId), p.sessionId, LineId(line));
      FirstExtends(Values(before, LineBranch), p.gitBranch, LineBranch(line));
      FirstExtends(Values(before, LineDir), p.projectPath, LineDir(line));
      FirstExtends(Values(before, LineTime), p.firstMessageAt, LineTime(line));
    }
  }

  lemma NothingCarried()
    ensures forall f: Line -> string :: IsFirst(Values([], f), "") && IsLast(Values([], f), "")
  {
  }

  /**
    End time, model and prompt are those of the last line carrying one: the time of any line, the
    model of an assistant message, the first 500 characters of a non-empty user text.
   */
  lemma {:induction false} LastWins(lines: seq<Line>)
    ensures var r := Fold(ZERO, lines);
            && IsLast(Values(lines, LineTime), r.lastMessageAt) && IsLast(Values(lines, LineModel), r.model)
            && exists text :: IsLast(Values(lines, LinePrompt), text)
                      && r.lastUserPrompt == if text == "" then None else Some(Prefix500(text))
  {
    hide IsLast, Values, Prefix500;
    if lines == [] {
      NothingCarried();
      assert IsLast(Values(lines, LinePrompt), "");
    } else {
      var before, line := lines[..|lines| - 1], lines[|lines| - 1];
      LastWins(before);
      var p := Fold(ZERO, before);
      var text :| IsLast(Values(before, LinePrompt), text)
               && p.lastUserPrompt == if text == "" then None else Some(Prefix500(text));
      ValuesExtend(lines, LineTime);
      ValuesExtend(lines, LineModel);
      ValuesExtend(lines, LinePrompt);
      LastExtends(Values(before, LineTime), p.lastMessageAt, LineTime(line));
      LastExtends(Values(before, LineModel), p.model, LineModel(line));
      LastExtends(Values(before, LinePrompt), text, LinePrompt(line));
      assert IsLast(Values(lines, LinePrompt), Last(text, LinePrompt(line)));
    }
  }

  function Total(lines: seq<Line>, amount: Line -> int): int {
    if lines == [] then 0 else Total(lines[..|lines| - 1], amount) + amount(lines[|lines| - 1])
  }

  /** Token and tool counts are totals over the non-sidechain assistant messages. */
  lemma {:induction false} TotalsSummed(lines: seq<Line>)
    ensures var r := Fold(ZERO, lines);
            r.inputTokens == Total(lines, LineInput) && r.outputTokens == Total(lines, LineOutput)
            && r.toolUses == Total(lines, LineToolUses)
  {
    if lines != [] {
      TotalsSummed(lines[..|lines| - 1]);
    }
  }

  // ---- Parsing a file ---------------------------------------------------------

  /**
    What the statistics of a transcript are: the first id, branch, directory and time; the last
    time, model and prompt; how many messages of each kind; the sums of tokens and tool uses.
   */
  ghost predicate Summarizes(r: Stats, lines: seq<Line>) {
    && IsFirst(Values(lines, LineId), r.sessionId) && IsFirst(Values(lines, LineBranch), r.gitBranch)
    && IsFirst(Values(lines, LineDir), r.projectPath) && IsFirst(Values(lines, LineTime), r.firstMessageAt)
    && IsLast(Values(lines, LineTime), r.lastMessageAt) && IsLast(Values(lines, LineModel), r.model)
    && (exists text :: IsLast(Values(lines, LinePrompt), text)
                && r.lastUserPrompt == if text == "" then None else Some(Prefix500(text)))
    && r.userMessages == CountLines(lines, "user") && r.assistantMessages == CountLines(lines, "assistant")
    && r.inputTokens == Total(lines, LineInput) && r.outputTokens == Total(lines, LineOutput)
    && r.toolUses == Total(lines, LineToolUses)
  }

  lemma FoldSummarizes(lines: seq<Line>)
    ensures Summarizes(Fold(ZERO, lines), lines)
  {
    hide Fold, IsFirst, IsLast, Values;
    FirstWins(lines);
    LastWins(lines);
    MessagesCounted(lines);
    TotalsSummed(lines);
  }

  lemma FirstUnique(values: seq<string>, v: string, w: string)
    requires IsFirst(values, v) && IsFirst(values, w)
    ensures v == w
  {
  }

  lemma LastUnique(values: seq<string>, v: string, w: string)
    requires IsLast(values, v) && IsLast(values, w)
    ensures v == w
  {
  }

  /** A transcript has only one summary, so the description above pins every field. */
  lemma SummaryUnique(lines: seq<Line>, a: Stats, b: Stats)
    requires Summarizes(a, lines) && Summarizes(b, lines)
    ensures a == b
  {
    hide IsFirst, IsLast, Values, Prefix500;
    FirstUnique(Values(lines, LineId), a.sessionId, b.sessionId);
    FirstUnique(Values(lines, LineBranch), a.gitBranch, b.gitBranch);
    FirstUnique(Values(lines, LineDir), a.projectPath, b.projectPath);
    FirstUnique(Values(lines, LineTime), a.firstMessageAt, b.firstMessageAt);
    LastUnique(Values(lines, LineTime), a.lastMessageAt, b.lastMessageAt);
    LastUnique(Values(lines, LineModel), a.model, b.model);
    var p :| IsLast(Values(lines, LinePrompt), p) && a.lastUserPrompt == if p == "" then None else Some(Prefix500(p));
    var q :| IsLast(Values(lines, LinePrompt), q) && b.lastUserPrompt == if q == "" then None else Some(Prefix500(q));
    LastUnique(Values(lines, LinePrompt), p, q);
  }

  lemma FoldEmpty(lines: seq<Line>)
    ensures Fold(ZERO, lines[..0]) == ZERO
  {
  }

  lemma FoldNext(lines: seq<Line>, i: nat)
    requires i < |lines|
    ensures Fold(ZERO, lines[..i + 1]) == Read(Fold(ZERO, lines[..i]), lines[i])
  {
    assert lines[..i + 1][..i] == lines[..i];
  }

  lemma SkipLine(s: Stats, line: Line)
    requires !line.Parsed?
    ensures Read(s, line) == s
  {
  }

  /** A parsed line field by field, in the order of the loop's statements. */
  lemma ReadFields(s: Stats, e: Entry)
    ensures var r := Read(s, Parsed(e));
            var user := !e.sidechain && e.kind == "user" && e.message.Some?;
            var assistant := !e.sidechain && e.kind == "assistant" && e.message.Some?;
            && r.sessionId == (if s.sessionId == "" then e.sessionId else s.sessionId)
            && r.gitBranch == (if s.gitBranch == "" then e.gitBranch else s.gitBranch)
            && r.projectPath == (if s.projectPath == "" then e.cwd else s.projectPath)
            && r.firstMessageAt == (if s.firstMessageAt == "" then e.timestamp else s.firstMessageAt)
            && r.lastMessageAt == (if e.timestamp == "" then s.lastMessageAt else e.timestamp)
            && r.lastUserPrompt == (if user then ReadUser(s, e.message.value).lastUserPrompt else s.lastUserPrompt)
            && r.userMessages == s.userMessages + (if user then 1 else 0)
            && var a := if assistant then ReadAssistant(s, e.message.value) else s;
               && r.model == a.model && r.assistantMessages == a.assistantMessages && r.toolUses == a.toolUses
               && r.inputTokens == a.inputTokens && r.outputTokens == a.outputTokens
  {
    hide ToolUses, Prefix500;
  }

  lemma LastOf(a: string, b: string)
    ensures Last(a, b) == if b == "" then a else b
  {
  }

  /**
    parseSessionFile up to the accumulated statistics: nothing if a line throws or none carries a
    session id, otherwise the summary of the lines.
   */
  method ParseLines(lines: seq<Line>) returns (r: Option<Stats>)
    ensures r.Some? <==>
              (forall i | 0 <= i < |lines| :: !lines[i].Throwing?)
              && exists i :: 0 <= i < |lines| && lines[i].Parsed? && lines[i].entry.sessionId != ""
    ensures r.Some? ==> Summarizes(r.value, lines)
  {
    hide Fold, ToolUses, Prefix500, Summarizes, Read, First, Last;
    var sessionId, gitBranch, projectPath, model := "", "", "", "";
    FoldEmpty(lines);
    var firstMessageAt, lastMessageAt, lastUserPrompt: Option<string> := "", "", None;
    var userMessages, assistantMessages, toolUses, inputTokens, outputTokens := 0, 0, 0, 0, 0;
    for i := 0 to |lines|
      invariant Stats(sessionId, gitBranch, projectPath, firstMessageAt, lastMessageAt, lastUserPrompt, model,
                      userMessages, assistantMessages, toolUses, inputTokens, outputTokens) == Fold(ZERO, lines[..i])
      invariant forall j | 0 <= j < i :: !lines[j].Throwing?
    {
      FoldNext(lines, i);
      if lines[i].Unparsable? {
        SkipLine(Fold(ZERO, lines[..i]), lines[i]);
        continue;
      }
      if lines[i].Throwing? {
        return None;
      }
      var entry := lines[i].entry;
      ReadFields(Fold(ZERO, lines[..i]), entry);
      if sessionId == "" { sessionId := entry.sessionId; }
      if gitBranch == "" { gitBranch := entry.gitBranch; }
      if projectPath == "" { projectPath := entry.cwd; }
      if entry.timestamp != "" {
        if firstMessageAt == "" { firstMessageAt := entry.timestamp; }
        lastMessageAt := entry.timestamp;
      }
      if entry.sidechain {
        continue;
      }
      if entry.kind == "user" && entry.message.Some? {
        userMessages := userMessages + 1;
        var content := entry.message.value.content;
        if content.Text? && |content.text| > 0 { lastUserPrompt := Some(Prefix500(content.text)); }
      }
      if entry.kind == "assistant" && entry.message.Some? {
        var msg := entry.message.value;
        assistantMessages := assistantMessages + 1;
        LastOf(model, msg.model);
        if msg.model != "" { model := msg.model; }
        if msg.usage.Some? {
          var u := msg.usage.value;
          inputTokens := inputTokens + (u.input + u.cacheRead + u.cacheCreation);
          outputTokens := outputTokens + u.output;
        }
        if msg.content.Blocks? {
          var uses := CountToolUses(msg.content.types);
          toolUses := toolUses + uses;
        }
      }
    }
    assert lines[..|lines|] == lines;
    FoldSummarizes(lines);
    SessionIdCarried(lines, Fold(ZERO, lines));
    if sessionId == "" {
      return None;
    }
    return Some(Stats(sessionId, gitBranch, projectPath, firstMessageAt, lastMessageAt, lastUserPrompt, model,
                      userMessages, assistantMessages, toolUses, inputTokens, outputTokens));
  }

  lemma SessionIdCarried(lines: seq<Line>, r: Stats)
    requires Summarizes(r, lines)
    ensures r.sessionId != "" <==>
              exists i :: 0 <= i < |lines| && lines[i].Parsed? && lines[i].entry.sessionId != ""
  {
    var ids := Values(lines, LineId);
    assert forall i | 0 <= i < |lines| :: ids[i] == LineId(lines[i]);
  }

  lemma ToolUsesNext(types: seq<string>, k: nat)
    requires k < |types|
    ensures ToolUses(types[..k + 1]) == ToolUses(types[..k]) + if types[k] == "tool_use" then 1 else 0
  {
    var fewer, more := types[..k], types[..k + 1];
    var before := set i: nat | i < |fewer| && fewer[i] == "tool_use";
    var after := set i: nat | i < |more| && more[i] == "tool_use";
    assert after == if types[k] == "tool_use" then before + {k} else before;
  }

  method CountToolUses(types: seq<string>) returns (n: nat)
    ensures n == ToolUses(types)
  {
    n := 0;
    for k := 0 to |types|
      invariant n == ToolUses(types[..k])
    {
      ToolUsesNext(types, k);
      if types[k] == "tool_use" { n := n + 1; }
    }
    assert types[..|types|] == types;
  }

  // ---- The session table ------------------------------------------------------

  /** A scanned session. */
  datatype Scanned = Scanned(project: string, active: bool, stats: Stats)

  datatype Row = Row(project: string, active: bool, stats: Stats, scannedAt: int)

  /** Rows by session id. */
  type Table = map<string, Row>

  function IdOf(s: Scanned): string { s.stats.sessionId }

  /** INSERT … ON CONFLICT: an existing row keeps its project, directory and first message. */
  function Upsert(t: Table, s: Scanned, now: int): Table {
    if IdOf(s) in t then
      var row := t[IdOf(s)];
      t[IdOf(s) := Row(row.project, s.active,
                       s.stats.(projectPath := row.stats.projectPath, firstMessageAt := row.stats.firstMessageAt),
                       now)]
    else t[IdOf(s) := Row(s.project, s.active, s.stats, now)]
  }

  function UpsertAll(t: Table, scanned: seq<Scanned>, now: int): Table {
    if scanned == [] then t else Upsert(UpsertAll(t, scanned[..|scanned| - 1], now), scanned[|scanned| - 1], now)
  }

  function Deactivated(t: Table): Table {
    map id | id in t :: t[id].(active := false)
  }

  /** syncClaudeSessions: an empty scan leaves the table alone. */
  function Synced(t: Table, scanned: seq<Scanned>, now: int): Table {
    if scanned == [] then t else UpsertAll(Deactivated(t), scanned, now)
  }

  predicate LastScanned(scanned: seq<Scanned>, i: nat) {
    i < |scanned| && forall j | i < j < |scanned| :: IdOf(scanned[j]) != IdOf(scanned[i])
  }

  predicate FirstScanned(scanned: seq<Scanned>, i: nat) {
    i < |scanned| && forall j | 0 <= j < i :: IdOf(scanned[j]) != IdOf(scanned[i])
  }

  lemma {:induction false} UpsertAllOthers(t: Table, scanned: seq<Scanned>, now: int, id: string)
    requires forall j | 0 <= j < |scanned| :: IdOf(scanned[j]) != id
    ensures var r := UpsertAll(t, scanned, now); (id in r <==> id in t) && (id in t ==> r[id] == t[id])
  {
    if scanned != [] {
      UpsertAllOthers(t, scanned[..|scanned| - 1], now, id);
    }
  }

  /** The row tells what the scan says, but for where it came from and when it began. */
  predicate Tells(row: Row, s: Scanned, now: int) {
    && row.active == s.active && row.scannedAt == now
    && row.stats == s.stats.(projectPath := row.stats.projectPath, firstMessageAt := row.stats.firstMessageAt)
  }

  lemma {:induction false} UpsertAllLast(t: Table, scanned: seq<Scanned>, now: int, i: nat)
    requires LastScanned(scanned, i)
    ensures var r, s := UpsertAll(t, scanned, now), scanned[i]; IdOf(s) in r && Tells(r[IdOf(s)], s, now)
  {
    var n := |scanned| - 1;
    if i < n {
      UpsertAllLast(t, scanned[..n], now, i);
    }
  }

  predicate Origin(row: Row, project: string, stats: Stats) {
    row.project == project && row.stats.projectPath == stats.projectPath
    && row.stats.firstMessageAt == stats.firstMessageAt
  }

  lemma {:induction false} UpsertAllOrigin(t: Table, scanned: seq<Scanned>, now: int, id: string)
    requires id in t
    ensures var r := UpsertAll(t, scanned, now); id in r && Origin(r[id], t[id].project, t[id].stats)
  {
    if scanned != [] {
      UpsertAllOrigin(t, scanned[..|scanned| - 1], now, id);
    }
  }

  lemma {:induction false} UpsertAllNew(t: Table, scanned: seq<Scanned>, now: int, i: nat)
    requires FirstScanned(scanned, i) && IdOf(scanned[i]) !in t
    ensures var r, s := UpsertAll(t, scanned, now), scanned[i];
            IdOf(s) in r && Origin(r[IdOf(s)], s.project, s.stats)
  {
    var n := |scanned| - 1;
    if i < n {
      UpsertAllNew(t, scanned[..n], now, i);
    } else {
      UpsertAllOthers(t, scanned[..n], now, IdOf(scanned[i]));
    }
  }

  ghost predicate LastScannedActive(scanned: seq<Scanned>, id: string) {
    exists i: nat :: LastScanned(scanned, i) && IdOf(scanned[i]) == id && scanned[i].active
  }

  /**
    An empty scan changes nothing. After any other the active rows are exactly the sessions whose
    last scanned entry is active; a row that was not scanned is otherwise as it was.
   */
  lemma ActiveAfterSync(t: Table, scanned: seq<Scanned>, now: int, id: string)
    ensures scanned == [] ==> Synced(t, scanned, now) == t
    ensures scanned != [] ==>
              var r := Synced(t, scanned, now);
              (id in r && r[id].active) <==> LastScannedActive(scanned, id)
    ensures scanned != [] && (forall j | 0 <= j < |scanned| :: IdOf(scanned[j]) != id) ==>
              var r := Synced(t, scanned, now);
              (id in r <==> id in t) && (id in t ==> r[id] == t[id].(active := false))
  {
    if j :| 0 <= j < |scanned| && IdOf(scanned[j]) == id {
      var last := LastWithId(scanned, j);
      UpsertAllLast(Deactivated(t), scanned, now, last);
      assert forall i: nat | LastScanned(scanned, i) && IdOf(scanned[i]) == id :: i == last;
    } else {
      UpsertAllOthers(Deactivated(t), scanned, now, id);
    }
  }

  /**
    A scanned session's row tells what its last scanned entry says; project, directory and first
    message are those of the row that was there, or else of the first scanned entry.
   */
  lemma RowAfterSync(t: Table, scanned: seq<Scanned>, now: int, first: nat, last: nat)
    requires FirstScanned(scanned, first) && LastScanned(scanned, last) && IdOf(scanned[first]) == IdOf(scanned[last])
    ensures var r, id := Synced(t, scanned, now), IdOf(scanned[last]);
            && id in r && Tells(r[id], scanned[last], now)
            && (id in t ==> Origin(r[id], t[id].project, t[id].stats))
            && (id !in t ==> Origin(r[id], scanned[first].project, scanned[first].stats))
  {
    var id := IdOf(scanned[last]);
    UpsertAllLast(Deactivated(t), scanned, now, last);
    if id in t {
      UpsertAllOrigin(Deactivated(t), scanned, now, id);
    } else {
      UpsertAllNew(Deactivated(t), scanned, now, first);
    }
  }

  lemma {:induction false} LastWithId(scanned: seq<Scanned>, j: nat) returns (last: nat)
    requires j < |scanned|
    ensures LastScanned(scanned, last) && IdOf(scanned[last]) == IdOf(scanned[j])
    decreases |scanned| - j
  {
    last := j;
    if k :| j < k < |scanned| && IdOf(scanned[k]) == IdOf(scanned[j]) {
      last := LastWithId(scanned, k);
    }
  }

  class SessionTable {
    var rows: Table

    constructor (rows: Table)
      ensures this.rows == rows
    {
      this.rows := rows;
    }

    /** The transaction of syncClaudeSessions. */
    method Sync(scanned: seq<Scanned>, now: int) returns (upserted: nat)
      modifies this
      ensures rows == Synced(old(rows), scanned, now) && upserted == |scanned|
    {
      if scanned == [] {
        return 0;
      }
      rows := map id | id in rows :: rows[id].(active := false);
      ghost var cleared := rows;
      upserted := 0;
      for i := 0 to |scanned|
        invariant rows == UpsertAll(cleared, scanned[..i], now) && upserted == i
      {
        assert scanned[..i + 1][..i] == scanned[..i];
        var s := scanned[i];
        var id := s.stats.sessionId;
        if id in rows {
          var path, first := rows[id].stats.projectPath, rows[id].stats.firstMessageAt;
          rows := rows[id := rows[id].(active := s.active, scannedAt := now,
                                       stats := s.stats.(projectPath := path, firstMessageAt := first))];
        } else {
          rows := rows[id := Row(s.project, s.active, s.stats, now)];
        }
        upserted := upserted + 1;
      }
      assert scanned[..|scanned|] == scanned;
    }
  }
}
