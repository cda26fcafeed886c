/** The commit messages promotion writes and reads back: attribution trailers on
    every chain commit, and the batch claim on the tip. */
module Messages {
  import opened Options
  import opened Text
  import opened Decimals
  import opened Filters

  const BATCH := "Batch"
  const CANDIDATES := "Batch-Candidates"
  const HOST := "Promoter-Host"
  const PID := "Promoter-PID"
  const PROC_START := "Promoter-ProcStart"

  const BATCH_KEYS: seq<string> := [BATCH, CANDIDATES, HOST, PID, PROC_START]

  predicate IsBatchTrailer(key: string) {
    key == BATCH || key == CANDIDATES || key == HOST || key == PID || key == PROC_START
  }

  /** The trailer a line carries, if it is "key: value". */
  function TrailerOf(line: string): Option<(string, string)> {
    match Cut(TrimSpace(line), ": ")
    case None => None
    case Some(kv) => Some((kv.0, TrimSpace(kv.1)))
  }

  function Note(m: map<string, string>, line: string): map<string, string> {
    match TrailerOf(line)
    case None => m
    case Some(kv) => m[kv.0 := kv.1]
  }

  /** The trailers of a list of lines; a later line wins. */
  function Trailers(lines: seq<string>): map<string, string> {
    if |lines| == 0 then map[] else Note(Trailers(lines[..|lines| - 1]), lines[|lines| - 1])
  }

  function ParseTrailers(msg: string): map<string, string> {
    Trailers(Split(msg, '\n'))
  }

  /** parseTrailers, line by line into one map. */
  method ReadTrailers(msg: string) returns (out: map<string, string>)
    ensures out == ParseTrailers(msg)
  {
    out := map[];
    var lines := Split(msg, '\n');
    for i := 0 to |lines|
      invariant out == Trailers(lines[..i])
    {
      var kv := Cut(TrimSpace(lines[i]), ": ");
      if kv.Some? {
        out := out[kv.value.0 := TrimSpace(kv.value.1)];
      }
      assert lines[..i + 1][..i] == lines[..i];
    }
    assert lines[..|lines|] == lines;
  }

  lemma NoteOver(m: map<string, string>, n: map<string, string>, line: string)
    ensures Note(m + n, line) == m + Note(n, line)
  {
  }

  lemma {:induction false} TrailersAppend(a: seq<string>, b: seq<string>)
    ensures Trailers(a + b) == Trailers(a) + Trailers(b)
  {
    if |b| == 0 {
      assert a + b == a;
    } else {
      var front, last := b[..|b| - 1], b[|b| - 1];
      TrailersAppend(a, front);
      assert (a + b)[..|a + b| - 1] == a + front;
      NoteOver(Trailers(a), Trailers(front), last);
    }
  }

  lemma {:induction false} TrimSpaceAfter(l: string, c: char)
    requires IsSpace(c)
    ensures TrimSpace(l + [c]) == TrimSpace(l)
  {
    if |l| == 0 {
      assert TrimLeft([c]) == TrimLeft([]);
    } else if IsSpace(l[0]) {
      TrimSpaceAfter(l[1..], c);
      assert (l + [c])[1..] == l[1..] + [c];
    } else {
      assert (l + [c])[..|l|] == l;
    }
  }

  lemma OneLine(line: string)
    ensures Trailers([line]) == Note(map[], line)
  {
    assert [line][..0] == [];
  }

  lemma BlankLine()
    ensures TrailerOf("") == None && Trailers([""]) == map[]
  {
    OneLine("");
  }

  lemma {:induction false} ParseIgnoresLeading(msg: string)
    ensures ParseTrailers(TrimLeft(msg)) == ParseTrailers(msg)
  {
    if |msg| > 0 && IsSpace(msg[0]) {
      ParseIgnoresLeading(msg[1..]);
      var rest := Split(msg[1..], '\n');
      if msg[0] == '\n' {
        BlankLine();
        TrailersAppend([""], rest);
        assert Trailers([""]) == map[];
      } else {
        var first := [msg[0]] + rest[0];
        assert TrimLeft(first) == TrimLeft(rest[0]);
        TrailersAppend([first], rest[1..]);
        TrailersAppend([rest[0]], rest[1..]);
        assert [rest[0]] + rest[1..] == rest;
        OneLine(first);
        OneLine(rest[0]);
      }
    }
  }

  lemma BreakChangesNothing(front: string)
    ensures ParseTrailers(front + ['\n']) == ParseTrailers(front)
  {
    assert front + ['\n'] == front + ['\n'] + "";
    SplitConcat(front, "", '\n');
    TrailersAppend(Split(front, '\n'), [""]);
    BlankLine();
  }

  /** A character that is no separator joins the last part. */
  lemma {:induction false} SplitLastChar(s: string, c: char)
    requires c != '\n'
    ensures Split(s + [c], '\n') == Split(s, '\n')[..|Split(s, '\n')| - 1] + [Split(s, '\n')[|Split(s, '\n')| - 1] + [c]]
  {
    if |s| > 0 {
      SplitLastChar(s[1..], c);
      assert (s + [c])[1..] == s[1..] + [c];
      var rest := Split(s[1..], '\n');
      if s[0] != '\n' && |rest| == 1 {
        assert [s[0]] + (rest[0] + [c]) == ([s[0]] + rest[0]) + [c];
      }
    } else {
      assert [c][1..] == "";
      assert Split("", '\n') == [""];
      assert [c] + "" == [c] && "" + [c] == [c] && [] + [c] == [c];
    }
  }

  lemma TrailersLast(lines: seq<string>, line: string)
    ensures Trailers(lines + [line]) == Note(Trailers(lines), line)
  {
    assert (lines + [line])[..|lines|] == lines;
  }

  lemma SpaceChangesNothing(front: string, c: char)
    requires IsSpace(c) && c != '\n'
    ensures ParseTrailers(front + [c]) == ParseTrailers(front)
  {
    SplitLastChar(front, c);
    var lines := Split(front, '\n');
    var n := |lines| - 1;
    TrimSpaceAfter(lines[n], c);
    TrailersLast(lines[..n], lines[n]);
    TrailersLast(lines[..n], lines[n] + [c]);
    assert lines[..n] + [lines[n]] == lines;
  }

  lemma {:induction false} ParseIgnoresTrailing(msg: string)
    ensures ParseTrailers(TrimRight(msg)) == ParseTrailers(msg)
  {
    if |msg| > 0 && IsSpace(msg[|msg| - 1]) {
      var front, c := msg[..|msg| - 1], msg[|msg| - 1];
      ParseIgnoresTrailing(front);
      assert msg == front + [c];
      if c == '\n' { BreakChangesNothing(front); } else { SpaceChangesNothing(front, c); }
    }
  }

  /** Trimming a whole message, as every git read here does, moves no trailer. */
  lemma ParseIgnoresTrimming(msg: string)
    ensures ParseTrailers(TrimSpace(msg)) == ParseTrailers(msg)
  {
    ParseIgnoresLeading(msg);
    ParseIgnoresTrailing(TrimLeft(msg));
  }

  /** Nothing read out of a message has a line break or surrounding white space. */
  lemma {:induction false} ValuesClean(lines: seq<string>)
    requires forall i :: 0 <= i < |lines| ==> '\n' !in lines[i]
    ensures forall k :: k in Trailers(lines) ==> '\n' !in Trailers(lines)[k] && Trimmed(Trailers(lines)[k])
  {
    if |lines| > 0 {
      ValuesClean(lines[..|lines| - 1]);
      var line := lines[|lines| - 1];
      TrimSpaceFacts(line);
      if Cut(TrimSpace(line), ": ").Some? {
        var (k, v) := Cut(TrimSpace(line), ": ").value;
      CutWhole(TrimSpace(line), ": ");
        assert forall c :: c in v ==> c in k + ": " + v;
        TrimSpaceFacts(v);
      }
    }
  }

  // --- the claim on a chain's tip -------------------------------------------

  datatype Claim = Claim(host: string, pid: int, procStart: int, candidates: seq<string>)

  /** A claim that could not be read in full still names the candidates it could. */
  datatype ClaimError = BadClaim(candidates: seq<string>)

  function Lookup(m: map<string, string>, key: string): string {
    if key in m then m[key] else ""
  }

  function KeepIds(parts: seq<string>): seq<string> {
    if |parts| == 0 then []
    else if TrimSpace(parts[0]) == "" then KeepIds(parts[1..])
    else [TrimSpace(parts[0])] + KeepIds(parts[1..])
  }

  function ClaimOf(tr: map<string, string>): Result<Claim, ClaimError> {
    var ids := KeepIds(Split(Lookup(tr, CANDIDATES), ','));
    match (ParseInt(Lookup(tr, PID)), ParseInt(Lookup(tr, PROC_START)))
    case (Some(pid), Some(start)) =>
      if ids == [] then Err(BadClaim([])) else Ok(Claim(Lookup(tr, HOST), pid, start, ids))
    case _ => Err(BadClaim(ids))
  }

  /** readPromotionClaim, past the git read: the candidate list first, whatever the
      rest turns out to be. */
  function ReadClaim(msg: string): Result<Claim, ClaimError> {
    ClaimOf(ParseTrailers(TrimSpace(msg)))
  }

  /** The candidates a claim is known to hold, readable in full or not. */
  function ClaimedIds(msg: string): seq<string> {
    match ReadClaim(msg)
    case Ok(c) => c.candidates
    case Err(e) => e.candidates
  }

  function TrailerLine(key: string, value: string): string {
    key + ": " + value
  }

  /** The five lines, for any keys that can head one. */
  function FiveLines(k: seq<string>, v: seq<string>): seq<string>
    requires |k| == 5 && |v| == 5
  {
    [TrailerLine(k[0], v[0]), TrailerLine(k[1], v[1]), TrailerLine(k[2], v[2]),
      TrailerLine(k[3], v[3]), TrailerLine(k[4], v[4])]
  }

  function BatchValues(batch: string, c: Claim): (v: seq<string>)
    ensures |v| == 5
  {
    [batch, Join(c.candidates, ','), c.host, FormatInt(c.pid), FormatInt(c.procStart)]
  }

  /** The five lines the tip carries last. */
  function BatchLines(batch: string, c: Claim): seq<string> {
    FiveLines(BATCH_KEYS, BatchValues(batch, c))
  }

  /** What every chain commit says about its candidate, before any claim. */
  function Attribution(candidate: string, proposalSha: string, agent: string, session: string, bead: string): string {
    "loto: promote " + candidate + "\n\nCandidate: " + candidate + "\nProposal: " + proposalSha
      + "\nAgent: " + agent + "\nSession: " + session + "\nBead: " + bead
  }

  /** commitTree's message for the tip: the attribution and then the claim. */
  function TipMessage(head: string, batch: string, c: Claim): string {
    head + ['\n'] + Join(BatchLines(batch, c), '\n') + ['\n']
  }

  /** An id that survives a comma-separated trailer. */
  predicate CleanId(id: string) {
    id != "" && Trimmed(id) && ',' !in id && '\n' !in id
  }

  /** A value that survives a one-line trailer. */
  predicate CleanValue(v: string) {
    v != "" && Trimmed(v) && '\n' !in v
  }

  lemma TrailerLineRead(key: string, value: string)
    requires ':' !in key && key != "" && Trimmed(key) && CleanValue(value)
    ensures TrailerOf(TrailerLine(key, value)) == Some((key, value))
  {
    var line := TrailerLine(key, value);
    assert line[0] == key[0] && line[|line| - 1] == value[|value| - 1];
    TrimSpaceFacts(line);
    CutHead(key, ": ", value);
    TrimSpaceFacts(value);
  }

  lemma NumbersClean(n: int)
    ensures CleanValue(FormatInt(n))
  {
    FormatClean(n);
    var s := FormatInt(n);
    assert s[0] in s && s[|s| - 1] in s;
  }

  lemma CleanIdIsValue(id: string)
    requires CleanId(id)
    ensures CleanValue(id)
  {
  }

  lemma CleanValuesJoined(a: string, sep: char, b: string)
    requires CleanValue(a) && CleanValue(b) && sep != '\n'
    ensures CleanValue(a + [sep] + b)
  {
    var s := a + [sep] + b;
    assert s[0] == a[0] && s[|s| - 1] == b[|b| - 1];
  }

  lemma {:induction false} JoinedIdsClean(ids: seq<string>)
    requires |ids| > 0 && forall i :: 0 <= i < |ids| ==> CleanId(ids[i])
    ensures CleanValue(Join(ids, ','))
  {
    if |ids| > 1 {
      JoinedIdsClean(ids[1..]);
      CleanIdIsValue(ids[0]);
      CleanValuesJoined(ids[0], ',', Join(ids[1..], ','));
    }
  }

  lemma {:induction false} KeepCleanIds(ids: seq<string>)
    requires forall i :: 0 <= i < |ids| ==> CleanId(ids[i])
    ensures KeepIds(ids) == ids
  {
    if |ids| > 0 {
      TrimSpaceFacts(ids[0]);
      KeepCleanIds(ids[1..]);
    }
  }

  lemma TipTrailers(head: string, batch: string, c: Claim)
    requires forall i :: 0 <= i < 5 ==> '\n' !in BatchLines(batch, c)[i]
    ensures ParseTrailers(TipMessage(head, batch, c)) == ParseTrailers(head) + Trailers(BatchLines(batch, c))
  {
    var lines := BatchLines(batch, c);
    var body := Join(lines, '\n');
    SplitConcat(head + ['\n'] + body, "", '\n');
    assert TipMessage(head, batch, c) == (head + ['\n'] + body) + ['\n'] + "";
    SplitConcat(head, body, '\n');
    SplitJoin(lines, '\n');
    BlankLine();
    TrailersAppend(Split(head, '\n') + lines, [""]);
    TrailersAppend(Split(head, '\n'), lines);
  }

  /** A claim every part of which fits its trailer line. */
  predicate CleanClaim(c: Claim) {
    && CleanValue(c.host) && c.candidates != []
    && (forall i :: 0 <= i < |c.candidates| ==> CleanId(c.candidates[i]))
    && MIN_INT64 <= c.pid <= MAX_INT64 && MIN_INT64 <= c.procStart <= MAX_INT64
  }

  function ClaimTrailers(batch: string, c: Claim): map<string, string> {
    map[BATCH := batch, CANDIDATES := Join(c.candidates, ','), HOST := c.host,
      PID := FormatInt(c.pid), PROC_START := FormatInt(c.procStart)]
  }

  /** A key that can head a trailer line. */
  predicate PlainKey(key: string) {
    key != "" && Trimmed(key) && ':' !in key && '\n' !in key
  }

  lemma BatchKeysPlain()
    ensures forall i :: 0 <= i < 5 ==> PlainKey(BATCH_KEYS[i])
  {
    assert PlainKey(BATCH) && PlainKey(CANDIDATES) && PlainKey(HOST) && PlainKey(PID) && PlainKey(PROC_START);
  }

  /** The line is read back as the trailer it was written for. */
  predicate ReadsBack(key: string, value: string) {
    TrailerOf(TrailerLine(key, value)) == Some((key, value)) && '\n' !in TrailerLine(key, value)
  }

  lemma LineTrailer(key: string, value: string)
    requires PlainKey(key) && CleanValue(value)
    ensures ReadsBack(key, value)
  {
    TrailerLineRead(key, value);
  }

  /** The line carries exactly this trailer. */
  predicate Carries(line: string, key: string, value: string) {
    TrailerOf(line) == Some((key, value))
  }

  lemma TrailersStep(lines: seq<string>, line: string, key: string, value: string)
    requires Carries(line, key, value)
    ensures Trailers(lines + [line]) == Trailers(lines)[key := value]
  {
    TrailersLast(lines, line);
  }

  /** What the first n lines list. */
  function Listed(k: seq<string>, v: seq<string>): map<string, string>
    requires |k| == |v|
  {
    if |k| == 0 then map[] else Listed(k[..|k| - 1], v[..|k| - 1])[k[|k| - 1] := v[|k| - 1]]
  }

  lemma ListedLast(k: seq<string>, v: seq<string>, key: string, value: string)
    requires |k| == |v|
    ensures Listed(k + [key], v + [value]) == Listed(k, v)[key := value]
  {
    assert (k + [key])[..|k|] == k && (v + [value])[..|k|] == v;
  }

  lemma {:induction false} LinesNoted(l: seq<string>, k: seq<string>, v: seq<string>, n: nat)
    requires |l| == |k| == |v| && n <= |l|
    requires forall i :: 0 <= i < |l| ==> Carries(l[i], k[i], v[i])
    ensures Trailers(l[..n]) == Listed(k[..n], v[..n])
  {
    if n > 0 {
      LinesNoted(l, k, v, n - 1);
      TrailersStep(l[..n - 1], l[n - 1], k[n - 1], v[n - 1]);
      ListedLast(k[..n - 1], v[..n - 1], k[n - 1], v[n - 1]);
      assert l[..n] == l[..n - 1] + [l[n - 1]];
      assert k[..n] == k[..n - 1] + [k[n - 1]] && v[..n] == v[..n - 1] + [v[n - 1]];
    }
  }

  lemma ListedFive(k: seq<string>, v: seq<string>)
    requires |k| == 5 && |v| == 5
    ensures Listed(k, v) == map[k[0] := v[0], k[1] := v[1], k[2] := v[2], k[3] := v[3], k[4] := v[4]]
  {
    forall n | 0 <= n < 5 ensures Listed(k[..n + 1], v[..n + 1]) == Listed(k[..n], v[..n])[k[n] := v[n]] {
      ListedLast(k[..n], v[..n], k[n], v[n]);
      assert k[..n] + [k[n]] == k[..n + 1] && v[..n] + [v[n]] == v[..n + 1];
    }
    assert k[..5] == k && v[..5] == v;
  }

  lemma FiveLinesRead(k: seq<string>, v: seq<string>)
    requires |k| == 5 && |v| == 5
    requires forall i :: 0 <= i < 5 ==> PlainKey(k[i]) && CleanValue(v[i])
    ensures Trailers(FiveLines(k, v)) == map[k[0] := v[0], k[1] := v[1], k[2] := v[2], k[3] := v[3], k[4] := v[4]]
    ensures forall i :: 0 <= i < 5 ==> '\n' !in FiveLines(k, v)[i]
  {
    var l := FiveLines(k, v);
    forall i | 0 <= i < 5 ensures Carries(l[i], k[i], v[i]) && '\n' !in l[i] {
      LineTrailer(k[i], v[i]);
      assert l[i] == TrailerLine(k[i], v[i]);
    }
    LinesNoted(l, k, v, 5);
    assert l[..5] == l && k[..5] == k && v[..5] == v;
    ListedFive(k, v);
  }

  lemma ClaimValuesClean(batch: string, c: Claim)
    requires CleanValue(batch) && CleanClaim(c)
    ensures forall i :: 0 <= i < 5 ==> CleanValue(BatchValues(batch, c)[i])
  {
    JoinedIdsClean(c.candidates);
    NumbersClean(c.pid);
    NumbersClean(c.procStart);
  }

  lemma ClaimLinesRead(batch: string, c: Claim)
    requires CleanValue(batch) && CleanClaim(c)
    ensures Trailers(BatchLines(batch, c)) == ClaimTrailers(batch, c)
    ensures forall i :: 0 <= i < 5 ==> '\n' !in BatchLines(batch, c)[i]
  {
    BatchKeysPlain();
    ClaimValuesClean(batch, c);
    FiveLinesRead(BATCH_KEYS, BatchValues(batch, c));
  }

  lemma ClaimedValues(tr: map<string, string>, c: Claim)
    requires CleanClaim(c)
    requires Lookup(tr, CANDIDATES) == Join(c.candidates, ',') && Lookup(tr, HOST) == c.host
    requires Lookup(tr, PID) == FormatInt(c.pid) && Lookup(tr, PROC_START) == FormatInt(c.procStart)
    ensures ClaimOf(tr) == Ok(c)
  {
    SplitJoin(c.candidates, ',');
    KeepCleanIds(c.candidates);
    ParseFormatInt(c.pid);
    ParseFormatInt(c.procStart);
  }

  lemma LastWins(m: map<string, string>, batch: string, c: Claim)
    ensures Lookup(m + ClaimTrailers(batch, c), CANDIDATES) == Join(c.candidates, ',')
    ensures Lookup(m + ClaimTrailers(batch, c), HOST) == c.host
    ensures Lookup(m + ClaimTrailers(batch, c), PID) == FormatInt(c.pid)
    ensures Lookup(m + ClaimTrailers(batch, c), PROC_START) == FormatInt(c.procStart)
  {
  }

  /** The claim reads back whole whatever the attribution above it says, because its
      own lines come last. */
  lemma ClaimRoundTrip(head: string, batch: string, c: Claim)
    requires CleanValue(batch) && CleanClaim(c)
    ensures ReadClaim(TipMessage(head, batch, c)) == Ok(c)
  {
    ClaimLinesRead(batch, c);
    TipTrailers(head, batch, c);
    ParseIgnoresTrimming(TipMessage(head, batch, c));
    var tr := ParseTrailers(head) + ClaimTrailers(batch, c);
    LastWins(ParseTrailers(head), batch, c);
    ClaimedValues(tr, c);
  }

  lemma {:induction false} PartOfWhole(s: string, sep: char, i: nat)
    requires i < |Split(s, sep)|
    ensures forall c :: c in Split(s, sep)[i] ==> c in s
  {
    if |s| > 0 {
      var rest := Split(s[1..], sep);
      if s[0] == sep {
        if i > 0 { PartOfWhole(s[1..], sep, i - 1); }
      } else {
        PartOfWhole(s[1..], sep, i);
      }
    }
  }

  lemma {:induction false} KeptIdsClean(parts: seq<string>)
    requires forall i :: 0 <= i < |parts| ==> ',' !in parts[i] && '\n' !in parts[i]
    ensures forall i :: 0 <= i < |KeepIds(parts)| ==> CleanId(KeepIds(parts)[i])
  {
    if |parts| > 0 {
      TrimSpaceFacts(parts[0]);
      KeptIdsClean(parts[1..]);
    }
  }

  /** What any message can be read as: one line, trimmed, ids without commas. */
  lemma ReadClaimClean(msg: string)
    requires ReadClaim(msg).Ok?
    ensures '\n' !in ReadClaim(msg).value.host && Trimmed(ReadClaim(msg).value.host)
    ensures forall i :: 0 <= i < |ReadClaim(msg).value.candidates| ==> CleanId(ReadClaim(msg).value.candidates[i])
  {
    var text := TrimSpace(msg);
    SplitPartsClean(text, '\n');
    ValuesClean(Split(text, '\n'));
    var list := Lookup(ParseTrailers(text), CANDIDATES);
    SplitPartsClean(list, ',');
    forall i | 0 <= i < |Split(list, ',')| ensures '\n' !in Split(list, ',')[i] {
      PartOfWhole(list, ',', i);
    }
    KeptIdsClean(Split(list, ','));
  }

  /** A claim whose host line is blank, and all else fits. */
  predicate Hostless(c: Claim) {
    c.host == "" && CleanClaim(c.(host := "-"))
  }

  lemma ColonInside(a: string, b: string, key: string)
    requires a + ": " + b == key + [':']
    ensures ':' in key
  {
    assert (a + ": " + b)[|a|] == ':';
    assert key[|a|] == ':';
  }

  /** A trailer line without a value carries nothing. */
  lemma BlankLineRead(key: string)
    requires PlainKey(key)
    ensures TrailerOf(TrailerLine(key, "")) == None && '\n' !in TrailerLine(key, "")
  {
    var line, text := TrailerLine(key, ""), key + [':'];
    assert line == text + [' '] && text[0] == key[0];
    TrimSpaceAfter(text, ' ');
    TrimSpaceFacts(text);
    if Cut(text, ": ").Some? {
      CutWhole(text, ": ");
      ColonInside(Cut(text, ": ").value.0, Cut(text, ": ").value.1, key);
    }
  }

  lemma BlankSkipped(lines: seq<string>, line: string)
    requires TrailerOf(line) == None
    ensures Trailers(lines + [line]) == Trailers(lines)
  {
    TrailersLast(lines, line);
  }

  lemma BlankBetween(front: seq<string>, line: string, back: seq<string>)
    requires TrailerOf(line) == None
    ensures Trailers(front + [line] + back) == Trailers(front) + Trailers(back)
  {
    TrailersAppend(front + [line], back);
    BlankSkipped(front, line);
  }

  lemma FourKeys(a: string, va: string, b: string, vb: string, c: string, vc: string, d: string, vd: string)
    ensures map[a := va][b := vb] + map[c := vc][d := vd] == map[a := va, b := vb, c := vc, d := vd]
  {
  }

  lemma TwoLinesRead(a: string, ka: string, va: string, b: string, kb: string, vb: string)
    requires Carries(a, ka, va) && Carries(b, kb, vb)
    ensures Trailers([a, b]) == map[ka := va][kb := vb]
  {
    assert [] + [a] == [a] && [a] + [b] == [a, b];
    TrailersStep([], a, ka, va);
    TrailersStep([a], b, kb, vb);
  }

  lemma FiveParts(l: seq<string>)
    requires |l| == 5
    ensures [l[0], l[1]] + [l[2]] + [l[3], l[4]] == l
  {
  }

  lemma FourNoted(l: seq<string>, k: seq<string>, v: seq<string>)
    requires |l| == |k| == |v| == 5 && TrailerOf(l[2]) == None
    requires forall i :: 0 <= i < 5 && i != 2 ==> Carries(l[i], k[i], v[i])
    ensures Trailers(l) == map[k[0] := v[0], k[1] := v[1], k[3] := v[3], k[4] := v[4]]
  {
    FiveParts(l);
    BlankBetween([l[0], l[1]], l[2], [l[3], l[4]]);
    TwoLinesRead(l[0], k[0], v[0], l[1], k[1], v[1]);
    TwoLinesRead(l[3], k[3], v[3], l[4], k[4], v[4]);
    FourKeys(k[0], v[0], k[1], v[1], k[3], v[3], k[4], v[4]);
  }

  /** With the middle value blank the other four are read. */
  lemma FourLinesRead(k: seq<string>, v: seq<string>)
    requires |k| == 5 && |v| == 5 && v[2] == ""
    requires forall i :: 0 <= i < 5 ==> PlainKey(k[i]) && (i != 2 ==> CleanValue(v[i]))
    ensures Trailers(FiveLines(k, v)) == map[k[0] := v[0], k[1] := v[1], k[3] := v[3], k[4] := v[4]]
    ensures forall i :: 0 <= i < 5 ==> '\n' !in FiveLines(k, v)[i]
  {
    var l := FiveLines(k, v);
    forall i | 0 <= i < 5 && i != 2 ensures Carries(l[i], k[i], v[i]) && '\n' !in l[i] {
      LineTrailer(k[i], v[i]);
      assert l[i] == TrailerLine(k[i], v[i]);
    }
    BlankLineRead(k[2]);
    assert l[2] == TrailerLine(k[2], "");
    FourNoted(l, k, v);
  }

  lemma HostlessValues(batch: string, c: Claim)
    requires CleanValue(batch) && Hostless(c)
    ensures BatchValues(batch, c)[2] == "" && forall i :: 0 <= i < 5 && i != 2 ==> CleanValue(BatchValues(batch, c)[i])
  {
    JoinedIdsClean(c.candidates);
    NumbersClean(c.pid);
    NumbersClean(c.procStart);
  }

  /** Without a host the line says nothing, and the other four are read. */
  lemma HostlessLinesRead(batch: string, c: Claim)
    requires CleanValue(batch) && Hostless(c)
    ensures Trailers(BatchLines(batch, c)) == ClaimTrailers(batch, c) - {HOST}
    ensures forall i :: 0 <= i < 5 ==> '\n' !in BatchLines(batch, c)[i]
  {
    BatchKeysPlain();
    HostlessValues(batch, c);
    FourLinesRead(BATCH_KEYS, BatchValues(batch, c));
  }

  lemma HostlessLookups(m: map<string, string>, batch: string, c: Claim)
    ensures var tr := m + (ClaimTrailers(batch, c) - {HOST});
      && Lookup(tr, CANDIDATES) == Join(c.candidates, ',') && Lookup(tr, HOST) == Lookup(m, HOST)
      && Lookup(tr, PID) == FormatInt(c.pid) && Lookup(tr, PROC_START) == FormatInt(c.procStart)
  {
  }

  lemma HostlessOf(m: map<string, string>, batch: string, c: Claim)
    requires Hostless(c)
    ensures ClaimOf(m + (ClaimTrailers(batch, c) - {HOST})) == Ok(c.(host := Lookup(m, HOST)))
  {
    SplitJoin(c.candidates, ',');
    KeepCleanIds(c.candidates);
    ParseFormatInt(c.pid);
    ParseFormatInt(c.procStart);
    HostlessLookups(m, batch, c);
  }

  /** What the tip says of a hostless claim is what it would say with a host, but that
      the host is whatever the attribution said. */
  lemma HostlessReads(head: string, batch: string, c: Claim)
    requires CleanValue(batch) && Hostless(c)
    ensures ReadClaim(TipMessage(head, batch, c)) == Ok(c.(host := Lookup(ParseTrailers(head), HOST)))
  {
    HostlessLinesRead(batch, c);
    TipTrailers(head, batch, c);
    ParseIgnoresTrimming(TipMessage(head, batch, c));
    HostlessOf(ParseTrailers(head), batch, c);
  }

  /** A claim comes back as written exactly when it names candidates, each fits a
      comma-separated trailer, and the host fits one line; a blank host comes back only
      when the attribution above does not happen to name one. */
  lemma ClaimReadsBackExactly(head: string, batch: string, c: Claim)
    requires CleanValue(batch)
    requires MIN_INT64 <= c.pid <= MAX_INT64 && MIN_INT64 <= c.procStart <= MAX_INT64
    ensures ReadClaim(TipMessage(head, batch, c)) == Ok(c) <==>
      && c.candidates != [] && (forall i :: 0 <= i < |c.candidates| ==> CleanId(c.candidates[i]))
      && (CleanValue(c.host) || (c.host == "" && Lookup(ParseTrailers(head), HOST) == ""))
  {
    if ReadClaim(TipMessage(head, batch, c)) == Ok(c) {
      ReadClaimClean(TipMessage(head, batch, c));
      assert c.candidates != [];
    }
    if c.candidates != [] && (forall i :: 0 <= i < |c.candidates| ==> CleanId(c.candidates[i])) {
      if CleanValue(c.host) { ClaimRoundTrip(head, batch, c); }
      if c.host == "" {
        assert CleanClaim(c.(host := "-"));
        HostlessReads(head, batch, c);
      }
    }
  }

  // --- a message, line by line ----------------------------------------------

  /** What is read once a line has been said: a blank value says nothing. */
  function Saying(m: map<string, string>, key: string, value: string): map<string, string> {
    if value == "" then m else m[key := value]
  }

  lemma LineSays(lines: seq<string>, key: string, value: string)
    requires PlainKey(key) && (value == "" || CleanValue(value))
    ensures Trailers(lines + [TrailerLine(key, value)]) == Saying(Trailers(lines), key, value)
    ensures '\n' !in TrailerLine(key, value)
  {
    if value == "" {
      BlankLineRead(key);
      BlankSkipped(lines, TrailerLine(key, ""));
    } else {
      LineTrailer(key, value);
      TrailersStep(lines, TrailerLine(key, value), key, value);
    }
  }

  /** One more line at the end of a message. */
  lemma LineAtEnd(front: string, key: string, value: string)
    requires PlainKey(key) && (value == "" || CleanValue(value))
    ensures ParseTrailers(front + ['\n'] + TrailerLine(key, value)) == Saying(ParseTrailers(front), key, value)
  {
    LineSays(Split(front, '\n'), key, value);
    SplitConcat(front, TrailerLine(key, value), '\n');
    SplitWhole(TrailerLine(key, value), '\n');
  }

  /** Another line of an attribution. */
  lemma Attributes(front: string, middle: string, key: string, value: string)
    requires middle == ['\n'] + (key + ": ") && PlainKey(key) && (value == "" || CleanValue(value))
    ensures ParseTrailers(front + middle + value) == Saying(ParseTrailers(front), key, value)
  {
    assert front + middle + value == front + ['\n'] + TrailerLine(key, value);
    LineAtEnd(front, key, value);
  }

  lemma FirstLineReads(candidate: string)
    requires CleanValue(candidate)
    ensures ParseTrailers("loto: promote " + candidate + "\n") == map["loto" := "promote " + candidate]
  {
    var line := TrailerLine("loto", "promote " + candidate);
    assert "loto" + ": " + ("promote " + candidate) == "loto: promote " + candidate;
    assert CleanValue("promote " + candidate) by {
      assert ("promote " + candidate)[|"promote " + candidate| - 1] == candidate[|candidate| - 1];
    }
    LineTrailer("loto", "promote " + candidate);
    SplitWhole(line, '\n');
    OneLine(line);
    BreakChangesNothing(line);
  }

  /** What an attribution says, if what it is about fits one line each: itself, line by
      line, a blank value saying nothing. */
  function Attributed(candidate: string, proposalSha: string, agent: string, session: string, bead: string): map<string, string> {
    Saying(Saying(Saying(map["loto" := "promote " + candidate, "Candidate" := candidate, "Proposal" := proposalSha],
      "Agent", agent), "Session", session), "Bead", bead)
  }

  lemma AttributionKeys()
    ensures "\nCandidate: " == ['\n'] + ("Candidate" + ": ") && PlainKey("Candidate")
    ensures "\nProposal: " == ['\n'] + ("Proposal" + ": ") && PlainKey("Proposal")
    ensures "\nAgent: " == ['\n'] + ("Agent" + ": ") && PlainKey("Agent")
    ensures "\nSession: " == ['\n'] + ("Session" + ": ") && PlainKey("Session")
    ensures "\nBead: " == ['\n'] + ("Bead" + ": ") && PlainKey("Bead")
  {
  }

  lemma FirstTwoLines(candidate: string)
    ensures "loto: promote " + candidate + "\n\nCandidate: " == "loto: promote " + candidate + "\n" + "\nCandidate: "
  {
    assert "\n\nCandidate: " == "\n" + "\nCandidate: ";
    assert "loto: promote " + candidate + ("\n" + "\nCandidate: ") == "loto: promote " + candidate + "\n" + "\nCandidate: ";
  }

  lemma AttributionReads(candidate: string, proposalSha: string, agent: string, session: string, bead: string)
    requires CleanValue(candidate) && CleanValue(proposalSha) && (agent == "" || CleanValue(agent))
    requires (session == "" || CleanValue(session)) && (bead == "" || CleanValue(bead))
    ensures ParseTrailers(Attribution(candidate, proposalSha, agent, session, bead))
      == Attributed(candidate, proposalSha, agent, session, bead)
  {
    var a := "loto: promote " + candidate + "\n";
    FirstLineReads(candidate);
    FirstTwoLines(candidate);
    AttributionKeys();
    Attributes(a, "\nCandidate: ", "Candidate", candidate);
    var b := a + "\nCandidate: " + candidate;
    Attributes(b, "\nProposal: ", "Proposal", proposalSha);
    var c := b + "\nProposal: " + proposalSha;
    Attributes(c, "\nAgent: ", "Agent", agent);
    var d := c + "\nAgent: " + agent;
    Attributes(d, "\nSession: ", "Session", session);
    Attributes(d + "\nSession: " + session, "\nBead: ", "Bead", bead);
  }

  predicate Says(tr: map<string, string>, candidate: string, proposalSha: string, agent: string, session: string, bead: string) {
    && Lookup(tr, "Candidate") == candidate && Lookup(tr, "Proposal") == proposalSha
    && Lookup(tr, "Agent") == agent && Lookup(tr, "Session") == session && Lookup(tr, "Bead") == bead
  }

  /** The message says this of its candidate. */
  predicate SaysOf(msg: string, candidate: string, proposalSha: string, agent: string, session: string, bead: string) {
    Says(ParseTrailers(msg), candidate, proposalSha, agent, session, bead)
  }

  lemma AttributedSays(candidate: string, proposalSha: string, agent: string, session: string, bead: string)
    ensures Says(Attributed(candidate, proposalSha, agent, session, bead), candidate, proposalSha, agent, session, bead)
  {
  }

  lemma ClaimSaysNothing(tr: map<string, string>, batch: string, c: Claim, key: string)
    requires key !in BATCH_KEYS
    ensures Lookup(tr + ClaimTrailers(batch, c), key) == Lookup(tr, key)
  {
    assert BATCH_KEYS[0] == BATCH && BATCH_KEYS[1] == CANDIDATES && BATCH_KEYS[2] == HOST && BATCH_KEYS[3] == PID
      && BATCH_KEYS[4] == PROC_START;
  }

  lemma AttributionKeysApart()
    ensures forall key | key in ["Candidate", "Proposal", "Agent", "Session", "Bead"] :: key !in BATCH_KEYS
  {
  }

  /** Every message of a chain says of its own candidate what it was written for, claim
      or no claim below it. */
  lemma AttributionStays(candidate: string, proposalSha: string, agent: string, session: string, bead: string, batch: string, c: Claim)
    requires CleanValue(candidate) && CleanValue(proposalSha) && (agent == "" || CleanValue(agent))
    requires (session == "" || CleanValue(session)) && (bead == "" || CleanValue(bead))
    requires CleanValue(batch) && CleanClaim(c)
    ensures SaysOf(Attribution(candidate, proposalSha, agent, session, bead) + "\n", candidate, proposalSha, agent, session, bead)
    ensures SaysOf(TipMessage(Attribution(candidate, proposalSha, agent, session, bead), batch, c),
      candidate, proposalSha, agent, session, bead)
  {
    var head := Attribution(candidate, proposalSha, agent, session, bead);
    AttributionReads(candidate, proposalSha, agent, session, bead);
    BreakChangesNothing(head);
    AttributedSays(candidate, proposalSha, agent, session, bead);
    ClaimLinesRead(batch, c);
    TipTrailers(head, batch, c);
    var keys := ["Candidate", "Proposal", "Agent", "Session", "Bead"];
    AttributionKeysApart();
    ClaimSaysNothing(ParseTrailers(head), batch, c, keys[0]);
    ClaimSaysNothing(ParseTrailers(head), batch, c, keys[1]);
    ClaimSaysNothing(ParseTrailers(head), batch, c, keys[2]);
    ClaimSaysNothing(ParseTrailers(head), batch, c, keys[3]);
    ClaimSaysNothing(ParseTrailers(head), batch, c, keys[4]);
  }

  // --- what the bridge keeps of a message -----------------------------------

  predicate CarriesBatchTrailer(line: string) {
    TrailerOf(line).Some? && IsBatchTrailer(TrailerOf(line).value.0)
  }

  function KeepLines(lines: seq<string>): seq<string> {
    if |lines| == 0 then []
    else
      var front := KeepLines(lines[..|lines| - 1]);
      if CarriesBatchTrailer(lines[|lines| - 1]) then front else front + [lines[|lines| - 1]]
  }

  function StripBatchTrailers(msg: string): string {
    Join(KeepLines(Split(msg, '\n')), '\n')
  }

  /** stripBatchTrailers. */
  method Strip(msg: string) returns (out: string)
    ensures out == StripBatchTrailers(msg)
  {
    var kept := [];
    var lines := Split(msg, '\n');
    for i := 0 to |lines|
      invariant kept == KeepLines(lines[..i])
    {
      var kv := Cut(TrimSpace(lines[i]), ": ");
      if !(kv.Some? && IsBatchTrailer(kv.value.0)) {
        kept := kept + [lines[i]];
      }
      assert lines[..i + 1][..i] == lines[..i];
    }
    assert lines[..|lines|] == lines;
    out := Join(kept, '\n');
  }

  /** A line that is none of the promoting process's own bookkeeping. */
  predicate Lasting(line: string) {
    var text := TrimSpace(line);
    && !("Batch: " <= text) && !("Batch-Candidates: " <= text) && !("Promoter-Host: " <= text)
    && !("Promoter-PID: " <= text) && !("Promoter-ProcStart: " <= text)
  }

  lemma HeadsExactly(line: string, key: string)
    requires ':' !in key
    ensures key + ": " <= TrimSpace(line) <==> TrailerOf(line).Some? && TrailerOf(line).value.0 == key
  {
    var text := TrimSpace(line);
    if key + ": " <= text {
      var rest := text[|key| + 2..];
      assert text == key + ": " + rest;
      CutHead(key, ": ", rest);
    }
    if Cut(text, ": ").Some? { CutWhole(text, ": "); }
  }

  lemma LastingExactly(line: string)
    ensures Lasting(line) <==> !CarriesBatchTrailer(line)
  {
    HeadsExactly(line, "Batch");
    HeadsExactly(line, "Batch-Candidates");
    HeadsExactly(line, "Promoter-Host");
    HeadsExactly(line, "Promoter-PID");
    HeadsExactly(line, "Promoter-ProcStart");
    assert "Batch" + ": " == "Batch: " && "Batch-Candidates" + ": " == "Batch-Candidates: ";
    assert "Promoter-Host" + ": " == "Promoter-Host: " && "Promoter-PID" + ": " == "Promoter-PID: ";
    assert "Promoter-ProcStart" + ": " == "Promoter-ProcStart: ";
  }

  lemma {:induction false} KeptExactly(lines: seq<string>)
    ensures KeepLines(lines) == Filter(lines, Lasting)
  {
    if |lines| > 0 {
      KeptExactly(lines[..|lines| - 1]);
      LastingExactly(lines[|lines| - 1]);
    }
  }

  function BatchKeys(): set<string> {
    {BATCH, CANDIDATES, HOST, PID, PROC_START}
  }

  lemma NoteMinus(m: map<string, string>, line: string)
    ensures CarriesBatchTrailer(line) ==> Note(m, line) - BatchKeys() == m - BatchKeys()
    ensures !CarriesBatchTrailer(line) ==> Note(m - BatchKeys(), line) == Note(m, line) - BatchKeys()
  {
  }

  lemma KeepOne(front: seq<string>, last: string)
    requires Trailers(KeepLines(front)) == Trailers(front) - BatchKeys()
    ensures Trailers(KeepLines(front + [last])) == Trailers(front + [last]) - BatchKeys()
  {
    assert (front + [last])[..|front|] == front;
    NoteMinus(Trailers(front), last);
    TrailersLast(front, last);
    if !CarriesBatchTrailer(last) { TrailersLast(KeepLines(front), last); }
  }

  lemma {:induction false} KeepLinesTrailers(lines: seq<string>)
    requires forall i :: 0 <= i < |lines| ==> '\n' !in lines[i]
    ensures Trailers(KeepLines(lines)) == Trailers(lines) - BatchKeys()
    ensures forall i :: 0 <= i < |KeepLines(lines)| ==> '\n' !in KeepLines(lines)[i]
  {
    if |lines| > 0 {
      var front, last := lines[..|lines| - 1], lines[|lines| - 1];
      KeepLinesTrailers(front);
      KeepOne(front, last);
      assert front + [last] == lines;
    }
  }

  /** A stripped message is the original's other lines, in order, and reads as the
      original minus exactly the batch keys. */
  lemma StripExactly(msg: string)
    ensures StripBatchTrailers(msg) == Join(Filter(Split(msg, '\n'), Lasting), '\n')
    ensures ParseTrailers(StripBatchTrailers(msg)) ==
      ParseTrailers(msg) - {"Batch", "Batch-Candidates", "Promoter-Host", "Promoter-PID", "Promoter-ProcStart"}
  {
    KeptExactly(Split(msg, '\n'));
    var lines := Split(msg, '\n');
    SplitPartsClean(msg, '\n');
    KeepLinesTrailers(lines);
    var kept := KeepLines(lines);
    if |kept| > 0 {
      SplitJoin(kept, '\n');
    } else {
      BlankLine();
      assert Split("", '\n') == [""];
    }
  }
}
