/** The key=value drawing message (week6/var_client.c prints it, week6/var_server.c parses it
    read by read). The six int fields are numbered in the order they are printed. */
module VarText {
  import opened Sequences
  import opened Decimal

  const LF := '\n'
  const FIELDS: nat := 6
  const END := "END"

  type Message = m: seq<int> | |m| == FIELDS witness [0, 0, 0, 0, 0, 0]

  const ZERO: Message := [0, 0, 0, 0, 0, 0]

  /** The i-th key; the parser tries them in this order. */
  function Key(i: nat): string {
    if i == 0 then "x1=" else if i == 1 then "y1=" else if i == 2 then "x2="
    else if i == 3 then "y2=" else if i == 4 then "width=" else "color="
  }

  // ---- The client -----------------------------------------------------------------------

  function FieldLine(m: Message, i: nat): string
    requires i < FIELDS
  {
    Key(i) + Print(m[i])
  }

  /** Lines, each closed by a newline. */
  function Joined(lines: seq<string>): string {
    if lines == [] then "" else lines[0] + [LF] + Joined(lines[1..])
  }

  function FieldLines(m: Message): (r: seq<string>)
    ensures |r| == FIELDS && forall i :: 0 <= i < FIELDS ==> r[i] == FieldLine(m, i)
  {
    seq(FIELDS, i requires 0 <= i < FIELDS => FieldLine(m, i))
  }

  // ---- The server -----------------------------------------------------------------------

  /** strtok on newlines: the non-empty stretches between them. */
  function Tokens(s: string): seq<string>
    decreases |s|
  {
    if s == "" then []
    else if s[0] == LF then Tokens(s[1..])
    else
      var k := IndexOf(s, LF);
      [s[..k]] + Tokens(s[k..])
  }

  /** The first key the line begins with; FIELDS when none fits. */
  function KeyOf(line: string, i: nat): (k: nat)
    requires i <= FIELDS
    ensures i <= k <= FIELDS
    ensures k < FIELDS ==> Key(k) <= line
    decreases FIELDS - i
  {
    if i == FIELDS || Key(i) <= line then i else KeyOf(line, i + 1)
  }

  /** One strstr-and-sscanf chain: a matching field is set, if a number follows. */
  function ParseLine(m: Message, line: string): Message {
    var k := KeyOf(line, 0);
    if k == FIELDS then m
    else
      match Parse(line[|Key(k)|..])
      case None => m
      case Some(v) => m[k := v]
  }

  function ParseLines(m: Message, lines: seq<string>): Message {
    if lines == [] then m else ParseLine(ParseLines(m, lines[..|lines| - 1]), lines[|lines| - 1])
  }

  /** strstr(s, "END") finds something. */
  predicate HasEnd(s: string) {
    s != "" && (END <= s || HasEnd(s[1..]))
  }

  /** The server over the chunks it reads: the read that holds the END marker is not parsed. */
  function Parsed(m: Message, chunks: seq<string>): Message
    decreases |chunks|
  {
    if chunks == [] || HasEnd(chunks[0]) then m
    else Parsed(ParseLines(m, Tokens(chunks[0])), chunks[1..])
  }

  method Serve(chunks: seq<string>) returns (msg: Message)
    ensures msg == Parsed(ZERO, chunks)
  {
    msg := ZERO;
    var i := 0;
    while i < |chunks|
      invariant 0 <= i <= |chunks|
      invariant Parsed(ZERO, chunks) == Parsed(msg, chunks[i..])
    {
      if HasEnd(chunks[i]) {
        break;
      }
      var lines := Tokens(chunks[i]);
      ghost var before := msg;
      var j := 0;
      while j < |lines|
        invariant 0 <= j <= |lines| && msg == ParseLines(before, lines[..j])
      {
        assert lines[..j + 1][..j] == lines[..j];
        msg := ParseLine(msg, lines[j]);
        j := j + 1;
      }
      assert lines[..j] == lines;
      assert chunks[i..][1..] == chunks[i + 1..];
      i := i + 1;
    }
  }

  // ---- What arrives -----------------------------------------------------------------------

  predicate PlainLine(line: string) {
    line != "" && LF !in line
  }

  lemma TokenThenRest(line: string, rest: string)
    requires PlainLine(line)
    ensures Tokens(line + [LF] + rest) == [line] + Tokens(rest)
  {
    var s := line + [LF] + rest;
    assert s[|line|] == LF && forall i :: 0 <= i < |line| ==> s[i] == line[i];
    assert IndexOf(s, LF) == |line|;
    assert s[..|line|] == line && s[|line|..] == [LF] + rest;
    assert ([LF] + rest)[1..] == rest;
  }

  lemma {:induction false} TokensOfJoined(lines: seq<string>)
    requires forall i :: 0 <= i < |lines| ==> PlainLine(lines[i])
    ensures Tokens(Joined(lines)) == lines
  {
    if lines != [] {
      TokensOfJoined(lines[1..]);
      TokenThenRest(lines[0], Joined(lines[1..]));
    }
  }

  /** Only the END line has a capital E. */
  predicate NoE(s: string) {
    'E' !in s
  }

  lemma {:induction false} NoEndWithoutE(s: string)
    requires NoE(s)
    ensures !HasEnd(s)
  {
    if s != "" {
      assert END[0] == 'E' && s[0] != 'E';
      NoEndWithoutE(s[1..]);
    }
  }

  lemma {:induction false} JoinedNoE(lines: seq<string>)
    requires forall i :: 0 <= i < |lines| ==> NoE(lines[i])
    ensures NoE(Joined(lines))
  {
    if lines != [] {
      JoinedNoE(lines[1..]);
    }
  }

  lemma {:induction false} EndIsFound(before: string, rest: string)
    ensures HasEnd(before + (END + rest))
  {
    var s := before + (END + rest);
    if before == "" {
      assert s == END + rest;
    } else {
      EndIsFound(before[1..], rest);
      assert s[1..] == before[1..] + (END + rest);
    }
  }

  lemma KeysAreDistinct(i: nat, k: nat, rest: string)
    requires i < FIELDS && k < FIELDS && i != k
    ensures !(Key(k) <= Key(i) + rest)
  {
    var s := Key(i) + rest;
    assert s[0] == Key(i)[0] && s[1] == Key(i)[1];
  }

  lemma {:induction false} KeyIsFound(i: nat, from: nat, rest: string)
    requires from <= i < FIELDS
    ensures KeyOf(Key(i) + rest, from) == i
    decreases i - from
  {
    if from < i {
      KeysAreDistinct(i, from, rest);
      KeyIsFound(i, from + 1, rest);
    } else {
      assert Key(i) <= Key(i) + rest;
    }
  }

  /** A printed line sets its own field to the printed value, and no other. */
  lemma LineIsParsed(m: Message, sent: Message, i: nat)
    requires i < FIELDS
    ensures ParseLine(m, FieldLine(sent, i)) == m[i := sent[i]]
  {
    var line := FieldLine(sent, i);
    KeyIsFound(i, 0, Print(sent[i]));
    assert line[|Key(i)|..] == Print(sent[i]);
    PrintParses(sent[i], "");
    assert Print(sent[i]) + "" == Print(sent[i]);
  }

  lemma PrintedIsPlain(v: int)
    ensures Print(v) != "" && LF !in Print(v) && NoE(Print(v))
  {
    var s := Print(v);
    forall i | 0 <= i < |s| ensures s[i] == '-' || IsDigit(s[i]) {
    }
  }

  lemma FieldLineIsPlain(sent: Message, i: nat)
    requires i < FIELDS
    ensures PlainLine(FieldLine(sent, i)) && NoE(FieldLine(sent, i))
  {
    PrintedIsPlain(sent[i]);
    assert LF !in Key(i) && NoE(Key(i)) && Key(i) != "";
  }

  /** m with the fields from..to as sent. */
  predicate IsFilled(r: Message, m: Message, sent: Message, from: nat, to: nat) {
    forall i :: 0 <= i < FIELDS ==> r[i] == if from <= i < to then sent[i] else m[i]
  }

  lemma {:induction false} ParseOneMore(m: Message, lines: seq<string>, last: string)
    ensures ParseLines(m, lines + [last]) == ParseLine(ParseLines(m, lines), last)
  {
    assert (lines + [last])[..|lines|] == lines;
  }

  lemma SliceGrows(lines: seq<string>, from: nat, to: nat)
    requires from <= to < |lines|
    ensures lines[from..to + 1] == lines[from..to] + [lines[to]]
  {
  }

  lemma FillOneMore(r: Message, m: Message, sent: Message, from: nat, to: nat)
    requires from <= to < FIELDS && IsFilled(r, m, sent, from, to)
    ensures IsFilled(r[to := sent[to]], m, sent, from, to + 1)
  {
  }

  lemma RangeGrows(m: Message, sent: Message, from: nat, to: nat)
    requires from <= to < FIELDS
    ensures ParseLines(m, FieldLines(sent)[from..to + 1])
         == ParseLines(m, FieldLines(sent)[from..to])[to := sent[to]]
  {
    var lines := FieldLines(sent)[from..to];
    SliceGrows(FieldLines(sent), from, to);
    ParseOneMore(m, lines, FieldLine(sent, to));
    LineIsParsed(ParseLines(m, lines), sent, to);
  }

  /** Parsing the lines of fields from..to sets exactly those fields. */
  lemma {:induction false} RangeIsParsed(m: Message, sent: Message, from: nat, to: nat)
    requires from <= to <= FIELDS
    ensures IsFilled(ParseLines(m, FieldLines(sent)[from..to]), m, sent, from, to)
  {
    if from < to {
      RangeIsParsed(m, sent, from, to - 1);
      RangeGrows(m, sent, from, to - 1);
      FillOneMore(ParseLines(m, FieldLines(sent)[from..to - 1]), m, sent, from, to - 1);
    }
  }

  // ---- Every split at newline boundaries ------------------------------------------------

  /** How many lines arrive in the reads before the one that holds END. */
  function Total(groups: seq<nat>): nat {
    if groups == [] then 0 else groups[0] + Total(groups[1..])
  }

  /** The lines from `from` on, read in groups; the last read holds the rest and the END line. */
  function Grouped(lines: seq<string>, from: nat, groups: seq<nat>): seq<string>
    requires from + Total(groups) <= |lines|
    decreases |groups|
  {
    if groups == [] then [Joined(lines[from..] + [END])]
    else [Joined(lines[from..from + groups[0]])] + Grouped(lines, from + groups[0], groups[1..])
  }

  /** The printed text from field `from` on, read in groups of lines. */
  function Chunks(sent: Message, from: nat, groups: seq<nat>): seq<string>
    requires from + Total(groups) <= FIELDS
  {
    Grouped(FieldLines(sent), from, groups)
  }

  /** sprintf's output: the six lines and the END line. */
  function Text(sent: Message): string {
    Joined(FieldLines(sent) + [END])
  }

  function Flatten(chunks: seq<string>): string {
    if chunks == [] then "" else chunks[0] + Flatten(chunks[1..])
  }

  lemma {:induction false} JoinedAppend(a: seq<string>, b: seq<string>)
    ensures Joined(a + b) == Joined(a) + Joined(b)
  {
    if a == [] {
      assert a + b == b;
    } else {
      JoinedAppend(a[1..], b);
      assert (a + b)[1..] == a[1..] + b;
      Associative(a[0] + [LF], Joined(a[1..]), Joined(b));
    }
  }

  /** The reads are a split of the text. */
  lemma {:induction false} GroupsAreASplit(lines: seq<string>, from: nat, groups: seq<nat>)
    requires from + Total(groups) <= |lines|
    ensures Flatten(Grouped(lines, from, groups)) == Joined(lines[from..] + [END])
    decreases |groups|
  {
    var chunks := Grouped(lines, from, groups);
    if groups == [] {
      assert Flatten(chunks) == chunks[0] + Flatten(chunks[1..]);
    } else {
      var to := from + groups[0];
      GroupsAreASplit(lines, to, groups[1..]);
      JoinedAppend(lines[from..to], lines[to..] + [END]);
      assert lines[from..] == lines[from..to] + lines[to..];
      Associative(lines[from..to], lines[to..], [END]);
      assert chunks[1..] == Grouped(lines, to, groups[1..]);
    }
  }

  lemma {:induction false} LastGroup(lines: seq<string>, from: nat, groups: seq<nat>)
    requires from + Total(groups) <= |lines|
    ensures var chunks := Grouped(lines, from, groups);
            chunks != [] && chunks[|chunks| - 1] == Joined(lines[from + Total(groups)..] + [END])
    decreases |groups|
  {
    if groups != [] {
      LastGroup(lines, from + groups[0], groups[1..]);
    }
  }

  /** Reads that each hold one or more whole lines. */
  ghost predicate WholeLines(parts: seq<string>) {
    forall i :: 0 <= i < |parts| ==> parts[i] != "" && parts[i][|parts[i]| - 1] == LF
  }

  ghost predicate AllPlain(lines: seq<string>) {
    forall i :: 0 <= i < |lines| ==> PlainLine(lines[i])
  }

  lemma FirstLineEnds(lines: seq<string>, read: string)
    requires lines != [] && PlainLine(lines[0]) && read <= Joined(lines) && read != "" && read[|read| - 1] == LF
    ensures |lines[0]| < |read| && read[..|lines[0]| + 1] == lines[0] + [LF]
  {
    var text := Joined(lines);
    assert forall i :: 0 <= i < |lines[0]| ==> text[i] == lines[0][i];
    assert text[|read| - 1] == LF && text[|lines[0]|] == LF;
  }

  /** Text cut off the front of some lines at a line end is the first few of them. */
  lemma {:induction false} PrefixIsLines(lines: seq<string>, read: string) returns (k: nat)
    requires AllPlain(lines) && read <= Joined(lines) && read != "" && read[|read| - 1] == LF
    ensures 0 < k <= |lines| && read == Joined(lines[..k])
  {
    var first := lines[0] + [LF];
    var rest := Joined(lines[1..]);
    FirstLineEnds(lines, read);
    if |read| == |first| {
      k := 1;
      assert lines[..1] == [lines[0]] && [lines[0]][1..] == [];
      assert Joined(lines[..1]) == first + "";
    } else {
      var more := read[|first|..];
      assert read == first + more && (more <= rest);
      k := PrefixIsLines(lines[1..], more);
      assert lines[..k + 1][1..] == lines[1..][..k];
      k := k + 1;
    }
  }

  lemma {:induction false} JoinedSplits(lines: seq<string>, k: nat)
    requires k <= |lines|
    ensures Joined(lines) == Joined(lines[..k]) + Joined(lines[k..])
  {
    JoinedAppend(lines[..k], lines[k..]);
    assert lines == lines[..k] + lines[k..];
  }

  lemma SomethingIsLeft(parts: seq<string>)
    requires parts != [] && WholeLines(parts)
    ensures Flatten(parts) != ""
  {
  }

  lemma LinesAreSomething(lines: seq<string>)
    requires lines != []
    ensures Joined(lines) != ""
  {
  }

  /** The first read holds k whole lines; the others hold the rest. */
  lemma FirstReadSplits(lines: seq<string>, parts: seq<string>) returns (k: nat)
    requires AllPlain(lines) && parts != [] && WholeLines(parts) && Flatten(parts) == Joined(lines)
    ensures 0 < k <= |lines| && parts[0] == Joined(lines[..k])
    ensures WholeLines(parts[1..]) && Flatten(parts[1..]) == Joined(lines[k..])
    ensures k == |lines| <==> parts[1..] == []
  {
    if |parts| > 1 {
      SomethingIsLeft(parts[1..]);
    }
    var text := Joined(lines);
    assert text == parts[0] + Flatten(parts[1..]);
    k := PrefixIsLines(lines, parts[0]);
    JoinedSplits(lines, k);
    assert text[|parts[0]|..] == Flatten(parts[1..]) == Joined(lines[k..]);
    if k < |lines| {
      LinesAreSomething(lines[k..]);
    }
  }

  /** Every split of some lines and END at line ends is one of those considered. */
  lemma {:induction false} EverySplitIsGrouped(lines: seq<string>, from: nat, parts: seq<string>)
    returns (groups: seq<nat>)
    requires from <= |lines| && AllPlain(lines) && PlainLine(END) && WholeLines(parts)
    requires Flatten(parts) == Joined(lines[from..] + [END])
    ensures from + Total(groups) <= |lines| && parts == Grouped(lines, from, groups)
    decreases |parts|
  {
    var left := lines[from..] + [END];
    LinesAreSomething(left);
    var k := FirstReadSplits(left, parts);
    if parts[1..] == [] {
      groups := [];
      assert left[..k] == left;
    } else {
      assert left[..k] == lines[from..from + k] && left[k..] == lines[from + k..] + [END];
      var later := EverySplitIsGrouped(lines, from + k, parts[1..]);
      groups := [k] + later;
      assert groups[1..] == later;
      assert parts == [parts[0]] + parts[1..];
    }
  }

  lemma FieldLinesArePlain(sent: Message)
    ensures AllPlain(FieldLines(sent)) && PlainLine(END)
  {
    forall i | 0 <= i < FIELDS ensures PlainLine(FieldLines(sent)[i]) {
      FieldLineIsPlain(sent, i);
    }
  }

  /** However the printed text is cut at line ends, the reads are one of the splits considered,
      and those considered are splits of it. */
  lemma ChunksAreTheSplits(sent: Message, parts: seq<string>)
    requires WholeLines(parts)
    ensures Flatten(parts) == Text(sent)
            <==> exists groups :: Total(groups) <= FIELDS && parts == Chunks(sent, 0, groups)
  {
    var lines := FieldLines(sent);
    assert lines[0..] == lines;
    FieldLinesArePlain(sent);
    if Flatten(parts) == Text(sent) {
      var groups := EverySplitIsGrouped(lines, 0, parts);
      assert Total(groups) <= FIELDS && parts == Chunks(sent, 0, groups);
    }
    forall groups | Total(groups) <= FIELDS && parts == Chunks(sent, 0, groups) ensures Flatten(parts) == Text(sent) {
      GroupsAreASplit(lines, 0, groups);
    }
  }

  lemma LastChunkIsSkipped(sent: Message, from: nat)
    requires from <= FIELDS
    ensures HasEnd(Joined(FieldLines(sent)[from..] + [END]))
  {
    var lines := FieldLines(sent)[from..];
    JoinedAppend(lines, [END]);
    assert [END][1..] == [] && Joined([END]) == END + [LF] + "";
    assert Joined([END]) == END + [LF];
    EndIsFound(Joined(lines), [LF]);
  }

  lemma ChunkIsParsed(m: Message, sent: Message, from: nat, to: nat)
    requires from <= to <= FIELDS
    ensures var chunk := Joined(FieldLines(sent)[from..to]);
            !HasEnd(chunk) && ParseLines(m, Tokens(chunk)) == ParseLines(m, FieldLines(sent)[from..to])
  {
    var lines := FieldLines(sent)[from..to];
    forall i | 0 <= i < |lines| ensures PlainLine(lines[i]) && NoE(lines[i]) {
      FieldLineIsPlain(sent, from + i);
    }
    TokensOfJoined(lines);
    JoinedNoE(lines);
    NoEndWithoutE(Joined(lines));
  }

  /** The server's message after these parts: what it had, with the fields before END's read. */
  lemma {:induction false} ReadsAreParsed(m: Message, sent: Message, from: nat, groups: seq<nat>)
    requires from + Total(groups) <= FIELDS
    ensures IsFilled(Parsed(m, Chunks(sent, from, groups)), m, sent, from, from + Total(groups))
    decreases |groups|
  {
    if groups == [] {
      LastChunkIsSkipped(sent, from);
    } else {
      var to := from + groups[0];
      var chunks := Chunks(sent, from, groups);
      var after := ParseLines(m, FieldLines(sent)[from..to]);
      ChunkIsParsed(m, sent, from, to);
      RangeIsParsed(m, sent, from, to);
      ReadsAreParsed(after, sent, to, groups[1..]);
      assert chunks[1..] == Chunks(sent, to, groups[1..]);
    }
  }

  /** For any message and any split of its text at newlines: a field arrives exactly when its
      line comes in a read before END's, or when it is the 0 the server starts with. */
  lemma FieldArrivesIff(sent: Message, groups: seq<nat>, i: nat)
    requires Total(groups) <= FIELDS && i < FIELDS
    ensures Flatten(Chunks(sent, 0, groups)) == Text(sent)
    ensures Parsed(ZERO, Chunks(sent, 0, groups))[i] == sent[i] <==> i < Total(groups) || sent[i] == 0
    ensures i >= Total(groups) ==> Parsed(ZERO, Chunks(sent, 0, groups))[i] == 0
  {
    GroupsAreASplit(FieldLines(sent), 0, groups);
    ReadsAreParsed(ZERO, sent, 0, groups);
    assert FieldLines(sent)[0..] == FieldLines(sent);
  }

  /** The same for the reads themselves: however the printed text is cut at line ends, there is a
      number of fields that came before END's read, and those are the ones that arrive. */
  lemma ReadsDecideFields(sent: Message, parts: seq<string>) returns (arrived: nat)
    requires WholeLines(parts) && Flatten(parts) == Text(sent)
    ensures arrived <= FIELDS && parts != []
    ensures parts[|parts| - 1] == Joined(FieldLines(sent)[arrived..] + [END])
    ensures IsFilled(Parsed(ZERO, parts), ZERO, sent, 0, arrived)
  {
    ChunksAreTheSplits(sent, parts);
    var groups :| Total(groups) <= FIELDS && parts == Chunks(sent, 0, groups);
    arrived := Total(groups);
    ReadsAreParsed(ZERO, sent, 0, groups);
    LastGroup(FieldLines(sent), 0, groups);
  }

  // ---- The text, letter by letter ---------------------------------------------------------

  /** Each key the client writes sets its own field to the number behind it, and no other. */
  lemma KeySetsItsField(m: Message, i: nat, key: string, v: int)
    requires i < 6 && key == ["x1=", "y1=", "x2=", "y2=", "width=", "color="][i]
    ensures ParseLine(m, key + Print(v)) == m[i := v]
  {
    LineIsParsed(m, m[i := v], i);
  }

  lemma JoinedCons(line: string, lines: seq<string>)
    ensures Joined([line] + lines) == line + [LF] + Joined(lines)
  {
    assert ([line] + lines)[1..] == lines;
  }

  lemma {:induction false} JoinedThree(a: string, b: string, c: string, rest: seq<string>)
    ensures Joined([a, b, c] + rest) == a + [LF] + (b + [LF] + (c + [LF] + Joined(rest)))
  {
    assert [a, b, c] + rest == [a] + ([b] + ([c] + rest));
    JoinedCons(a, [b] + ([c] + rest));
    JoinedCons(b, [c] + rest);
    JoinedCons(c, rest);
  }

  lemma FieldLineIsLiteral(m: Message, i: nat)
    requires i < 6
    ensures FieldLines(m)[i] == ["x1=", "y1=", "x2=", "y2=", "width=", "color="][i] + Print(m[i])
  {
  }

  lemma LinesAreLiteral(m: Message)
    ensures FieldLines(m) + [END]
         == ["x1=" + Print(m[0]), "y1=" + Print(m[1]), "x2=" + Print(m[2])]
            + (["y2=" + Print(m[3]), "width=" + Print(m[4]), "color=" + Print(m[5])] + ["END"])
  {
    FieldLineIsLiteral(m, 0);
    FieldLineIsLiteral(m, 1);
    FieldLineIsLiteral(m, 2);
    FieldLineIsLiteral(m, 3);
    FieldLineIsLiteral(m, 4);
    FieldLineIsLiteral(m, 5);
  }

  /** What the client writes for six ints. */
  lemma TextIsLiteral(x1: int, y1: int, x2: int, y2: int, width: int, color: int)
    ensures Text([x1, y1, x2, y2, width, color])
         == "x1=" + Print(x1) + ['\n'] + ("y1=" + Print(y1) + ['\n'] + ("x2=" + Print(x2) + ['\n']
            + ("y2=" + Print(y2) + ['\n'] + ("width=" + Print(width) + ['\n'] + ("color=" + Print(color) + ['\n']
            + "END\n")))))
  {
    LinesAreLiteral([x1, y1, x2, y2, width, color]);
    var later := ["y2=" + Print(y2), "width=" + Print(width), "color=" + Print(color)] + ["END"];
    JoinedThree("x1=" + Print(x1), "y1=" + Print(y1), "x2=" + Print(x2), later);
    JoinedThree("y2=" + Print(y2), "width=" + Print(width), "color=" + Print(color), ["END"]);
    assert ["END"][1..] == [] && "END" + ['\n'] + "" == "END\n";
  }

  const KEYS := ["x1=", "y1=", "x2=", "y2=", "width=", "color="]

  lemma KeyInOrder(line: string, i: nat)
    requires i < 6 && KEYS[i] <= line
    ensures KeyOf(line, 0) == i && Key(i) == KEYS[i]
  {
    assert Key(i) == KEYS[i];
    assert line == Key(i) + line[|Key(i)|..];
    KeyIsFound(i, 0, line[|Key(i)|..]);
  }

  /** Any line, printed by the client or not: one of the six keys at its start and a number behind it
      set that field, and nothing changes if no number follows. */
  lemma KeyedLineIsParsed(m: Message, line: string, i: nat)
    requires i < 6 && KEYS[i] <= line
    ensures ParseLine(m, line) == match Parse(line[|KEYS[i]|..]) case None => m case Some(v) => m[i := v]
  {
    KeyInOrder(line, i);
  }

  lemma KeyIsThere(line: string)
    ensures KeyOf(line, 0) < 6 ==> KEYS[KeyOf(line, 0)] <= line
  {
    assert KeyOf(line, 0) < 6 ==> Key(KeyOf(line, 0)) == KEYS[KeyOf(line, 0)];
  }

  /** A line that begins with none of the keys changes nothing. */
  lemma OtherLineIsIgnored(m: Message, line: string)
    requires forall i :: 0 <= i < 6 ==> !(KEYS[i] <= line)
    ensures ParseLine(m, line) == m
  {
    KeyIsThere(line);
  }

  predicate EndAt(s: string, k: nat) {
    k + 3 <= |s| && s[k..k + 3] == "END"
  }

  /** The END marker is found wherever it stands, and nothing else is taken for it. */
  lemma {:induction false} HasEndIff(s: string)
    ensures HasEnd(s) <==> exists k: nat :: EndAt(s, k)
  {
    if s == "" {
      assert forall k: nat :: !EndAt(s, k);
    } else {
      HasEndIff(s[1..]);
      if END <= s {
        assert EndAt(s, 0);
      } else if HasEnd(s[1..]) {
        var k: nat :| EndAt(s[1..], k);
        assert EndAt(s, k + 1);
      }
      forall k: nat | EndAt(s, k) ensures HasEnd(s) {
        if k > 0 {
          assert EndAt(s[1..], k - 1);
        } else {
          assert s[0..3] == s[..3];
        }
      }
    }
  }

  lemma SplitAt(a: string, b: string, k: nat)
    requires k <= |a|
    ensures (a + b)[..k] == a[..k] && (a + b)[k..] == a[k..] + b
  {
  }

  lemma FirstTokenSplits(a: string, rest: string)
    requires rest != "" && rest[0] == LF
    ensures var k := IndexOf(a, LF);
            IndexOf(a + rest, LF) == k && (a + rest)[..k] == a[..k] && (a + rest)[k..] == a[k..] + rest
  {
    var k := IndexOf(a, LF);
    SplitAt(a, rest, k);
    IndexOfFirst(a + rest, LF, k);
  }

  /** strtok: newlines, however many, only separate. */
  lemma {:induction false} TokensSplit(a: string, b: string)
    ensures Tokens(a + (['\n'] + b)) == Tokens(a) + Tokens(b)
    decreases |a|
  {
    var s := a + (['\n'] + b);
    if a == "" {
      assert s[1..] == b;
    } else if a[0] == '\n' {
      TokensSplit(a[1..], b);
      assert s[1..] == a[1..] + (['\n'] + b);
    } else {
      var k := IndexOf(a, LF);
      FirstTokenSplits(a, [LF] + b);
      TokensSplit(a[k..], b);
      assert Tokens(s) == [a[..k]] + Tokens(a[k..] + (['\n'] + b));
      Associative([a[..k]], Tokens(a[k..]), Tokens(b));
    }
  }
}
