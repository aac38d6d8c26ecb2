/** The `ports` setting of a VM: port ranges are written out as single lines, which are then
    parsed one by one. */
module PortArrays {
  import opened Results
  import opened Text
  import opened VMPorts

  const MAX_RANGE_SIZE := 20

  /** An accepted range: `size` consecutive ports from `start`, mapped to as many from `dst`. */
  datatype PortRange = PortRange(start: int, size: nat, arrow: string, group: string, dst: int, comment: string) {
    /** The line of the i-th port of the range. */
    function Line(i: nat): string {
      Itoa(start + i) + "/tcp" + AfterPort(i)
    }

    function AfterPort(i: nat): string {
      " " + arrow + " " + Target(i) + Suffix()
    }

    function Target(i: nat): string {
      group + (if start == dst then "" else ":" + Itoa(dst + i))
    }

    function Suffix(): string {
      if comment == "" then "" else " (" + comment + ")"
    }

    function Lines(): seq<string> {
      seq(size, i requires 0 <= i < size => Line(i))
    }
  }

  // -- recognising a range --------------------------------------------------

  datatype RangeText = RangeText(srcStart: string, srcEnd: string, arrow: string, group: string,
                                 dstStart: string, dstEnd: string)

  function SkipSpaces(s: string): string {
    if s != [] && s[0] == ' ' then SkipSpaces(s[1..]) else s
  }

  function LeadingWord(s: string): (w: string)
    ensures AllWordChars(w) && w <= s
  {
    if s == [] || !IsWordChar(s[0]) then [] else [s[0]] + LeadingWord(s[1..])
  }

  /** Recognises (:(\d+)(-(\d+))?)?$ ; an absent number is empty. */
  function ScanTarget(s: string): Option<(string, string)> {
    if s == [] then Some(("", ""))
    else
      var start := LeadingDigits(s[1..]);
      var rest := s[1 + |start|..];
      if s[0] != ':' || start == [] then None
      else if rest == [] then Some((start, ""))
      else
        var end := LeadingDigits(rest[1..]);
        if rest[0] != '-' || end == [] || |rest| != 1 + |end| then None else Some((start, end))
  }

  /** The part of a range from the arrow on. */
  function ScanFromArrow(srcStart: string, srcEnd: string, s: string): Option<RangeText> {
    if !HasPrefix(s, "<-") && !HasPrefix(s, "->") then None
    else
      var rest := SkipSpaces(s[2..]);
      var word := if rest == [] then [] else LeadingWord(rest[1..]);
      if word == [] || rest[0] != '@' then None
      else
        var target := ScanTarget(rest[1 + |word|..]);
        if target.None? then None
        else
          var arrow := if HasPrefix(s, "<-") then "<-" else "->";
          Some(RangeText(srcStart, srcEnd, arrow, ['@'] + word, target.value.0, target.value.1))
  }

  /** Recognises ^(\d+)-(\d+)/(tcp) *(<-|->) *(@[A-Za-z0-9_]+)(:(\d+)(-(\d+))?)?$ ; each part
      stops at the first character it does not accept. */
  function ScanRange(line: string): Option<RangeText> {
    var srcStart := LeadingDigits(line);
    var s1 := line[|srcStart|..];
    if srcStart == [] || !HasPrefix(s1, "-") then None
    else
      var srcEnd := LeadingDigits(s1[1..]);
      var s2 := s1[1 + |srcEnd|..];
      if srcEnd == [] || !HasPrefix(s2, "/tcp") then None
      else ScanFromArrow(srcStart, srcEnd, SkipSpaces(s2[4..]))
  }

  /** The numbers of a recognised range, with the checks on its size. */
  function CheckRange(t: RangeText, comment: string): Result<PortRange, PortError> {
    var start, end := Atoi(t.srcStart), Atoi(t.srcEnd);
    if start.None? || end.None? then Err(InvalidRange)
    else
      var span := end.value - start.value;
      var dst := if t.dstStart == "" then start else Atoi(t.dstStart);
      var dstSpan := if t.dstEnd == "" || dst.None? then Some(span)
                     else var d := Atoi(t.dstEnd); if d.None? then None else Some(d.value - dst.value);
      if dst.None? || dstSpan.None? then Err(InvalidRange)
      else if span != dstSpan.value then Err(RangeSizesDiffer)
      else if span + 1 > MAX_RANGE_SIZE then Err(RangeTooBig)
      else if span + 1 < 2 then Err(RangeTooSmall)
      else Ok(PortRange(start.value, span + 1, t.arrow, t.group, dst.value, comment))
  }

  /** A line that is not a range, a range, or a range that is refused. */
  function ReadRange(orgLine: string): Result<Option<PortRange>, PortError> {
    var (line, comment) := ExtractComment(orgLine);
    match ScanRange(TrimSpace(line))
    case None => Ok(None)
    case Some(t) =>
      match CheckRange(t, comment)
      case Ok(range) => Ok(Some(range))
      case Err(e) => Err(e)
  }

  /** The lines that one line stands for. */
  function Expand(orgLine: string): Result<seq<string>, PortError> {
    match ReadRange(orgLine)
    case Err(e) => Err(e)
    case Ok(None) => Ok([orgLine])
    case Ok(Some(range)) => Ok(range.Lines())
  }

  /** Replaces each line by the lines that `expand` gives for it, up to the first failure. */
  function ReplaceLines(expand: string -> Result<seq<string>, PortError>, lines: seq<string>)
    : Result<seq<string>, PortError>
  {
    if lines == [] then Ok([])
    else
      var before := ReplaceLines(expand, lines[..|lines| - 1]);
      if before.Err? then before
      else
        var last := expand(lines[|lines| - 1]);
        if last.Err? then last else Ok(before.value + last.value)
  }

  function Explode(lines: seq<string>): Result<seq<string>, PortError> {
    ReplaceLines(Expand, lines)
  }

  /** What NewVMPortArray returns. */
  function PortArray(lines: seq<string>): Result<seq<VMPort>, PortError> {
    var all := Explode(lines);
    if all.Err? then Err(all.error) else ParsePorts(all.value)
  }

  /** NewVMPortArray: ranges are written out first, then each line is parsed. */
  method NewVMPortArray(strPorts: seq<string>) returns (r: Result<seq<VMPort>, PortError>)
    ensures r == PortArray(strPorts)
  {
    var all := ExplodeRanges(Expand, strPorts);
    if all.Err? {
      return Err(all.error);
    }
    r := ParseAll(ParseLine, all.value);
  }

  method ExplodeRanges(expand: string -> Result<seq<string>, PortError>, strPorts: seq<string>)
    returns (r: Result<seq<string>, PortError>)
    ensures r == ReplaceLines(expand, strPorts)
  {
    var all: seq<string> := [];
    for i := 0 to |strPorts|
      invariant ReplaceLines(expand, strPorts[..i]) == Ok(all)
    {
      assert strPorts[..i + 1][..i] == strPorts[..i];
      ReplaceFails(expand, strPorts, i + 1);
      var items := expand(strPorts[i]);
      if items.Err? {
        return items;
      }
      all := all + items.value;
    }
    assert strPorts[..|strPorts|] == strPorts;
    return Ok(all);
  }

  method ParseAll(read: (string, nat, nat) -> Result<VMPort, PortError>, lines: seq<string>)
    returns (r: Result<seq<VMPort>, PortError>)
    ensures r == ReadPorts(read, lines)
  {
    var ports: seq<VMPort> := [];
    var importIndex, exportIndex := 0, 0;
    ghost var done: seq<string> := [];
    for i := 0 to |lines|
      invariant done == lines[..i] && ReadPorts(read, done) == Ok(ports)
      invariant importIndex == CountDirection(ports, Import)
      invariant exportIndex == CountDirection(ports, Export)
    {
      ReadOneMore(read, done, lines[i]);
      done := done + [lines[i]];
      var port := ParseOne(read(lines[i], importIndex, exportIndex), ports);
      if port.Err? {
        assert done == lines[..i + 1];
        ReadFails(read, lines, i + 1);
        return Err(port.error);
      }
      if port.value.direction == Export {
        exportIndex := exportIndex + 1;
      } else {
        importIndex := importIndex + 1;
      }
      CountSnoc(ports, port.value);
      ports := ports + [port.value];
    }
    assert done == lines;
    return Ok(ports);
  }

  lemma ReadOneMore(read: (string, nat, nat) -> Result<VMPort, PortError>, lines: seq<string>, line: string)
    requires ReadPorts(read, lines).Ok?
    ensures var ports := ReadPorts(read, lines).value;
      ReadPorts(read, lines + [line])
        == AddPort(ports, read(line, CountDirection(ports, Import), CountDirection(ports, Export)))
  {
    assert (lines + [line])[..|lines|] == lines;
  }

  /** A port read from a line, unless the line is wrong or there is such a port already. */
  method ParseOne(port: Result<VMPort, PortError>, ports: seq<VMPort>) returns (r: Result<VMPort, PortError>)
    ensures AddPort(ports, port) == if r.Ok? then Ok(ports + [r.value]) else Err(r.error)
    ensures r.Ok? ==> r == port
  {
    if port.Err? {
      return port;
    }
    var duplicate := FindDuplicate(port.value, ports);
    return if duplicate then Err(DuplicatePort) else port;
  }

  lemma CountSnoc(ports: seq<VMPort>, p: VMPort)
    ensures CountDirection(ports + [p], Import)
      == CountDirection(ports, Import) + (if p.direction == Import then 1 else 0)
    ensures CountDirection(ports + [p], Export)
      == CountDirection(ports, Export) + (if p.direction == Export then 1 else 0)
  {
    assert (ports + [p])[..|ports|] == ports;
  }

  method FindDuplicate(p: VMPort, ports: seq<VMPort>) returns (found: bool)
    ensures found == DuplicateOf(p, ports)
    ensures found <==> exists i | 0 <= i < |ports| ::
      && ports[i].port == p.port && ports[i].direction == p.direction && ports[i].protocol == p.protocol
      && ports[i].group == p.group && ports[i].publicPort == p.publicPort
  {
    for j := 0 to |ports|
      invariant forall k | 0 <= k < j :: ports[k].Identity() != p.Identity()
    {
      if p.Identity() == ports[j].Identity() {
        return true;
      }
    }
    return false;
  }

  lemma {:induction false} ReplaceFails(expand: string -> Result<seq<string>, PortError>, lines: seq<string>, n: nat)
    requires n <= |lines|
    ensures ReplaceLines(expand, lines[..n]).Err? ==> ReplaceLines(expand, lines) == ReplaceLines(expand, lines[..n])
  {
    if n < |lines| {
      ReplaceFails(expand, lines[..|lines| - 1], n);
      assert lines[..|lines| - 1][..n] == lines[..n];
    } else {
      assert lines[..n] == lines;
    }
  }

  lemma {:induction false} ReadFails(read: (string, nat, nat) -> Result<VMPort, PortError>, lines: seq<string>, n: nat)
    requires n <= |lines|
    ensures ReadPorts(read, lines[..n]).Err? ==> ReadPorts(read, lines) == ReadPorts(read, lines[..n])
  {
    if n < |lines| {
      ReadFails(read, lines[..|lines| - 1], n);
      assert lines[..|lines| - 1][..n] == lines[..n];
    } else {
      assert lines[..n] == lines;
    }
  }

  // -- what a parsed list satisfies -----------------------------------------

  predicate Distinct(ports: seq<VMPort>) {
    forall i, j | 0 <= i < j < |ports| :: ports[i].Identity() != ports[j].Identity()
  }

  /** Each port's index is the number of ports of its direction before it. */
  predicate Indexed(ports: seq<VMPort>) {
    forall i | 0 <= i < |ports| :: ports[i].index == CountDirection(ports[..i], ports[i].direction)
  }

  lemma ParseRightSound(right: string, comment: string, d: Direction, port: nat)
    requires 1 <= port <= MAX_PORT && ParseRight(right, comment, d, port).Ok?
    ensures var (group, publicPort, proxy) := ParseRight(right, comment, d, port).value;
      WellFormed(VMPort(port, TCP, d, 0, group, publicPort, proxy))
  {
    LowerIsNotPublic(TrimSpace(right));
  }

  lemma LowerIsNotPublic(group: string)
    ensures ToLower(ToLower(group)) == ToLower(group) && ToLower(group) != PUBLIC
  {
    assert |ToLower(group)| > 1 ==> ToLower(group)[1] == LowerChar(group[1]) != 'P';
  }

  lemma ParseLineSound(line: string, imports: nat, exports: nat)
    requires ParseLine(line, imports, exports).Ok?
    ensures var p := ParseLine(line, imports, exports).value;
      WellFormed(p) && p.index == (if p.direction == Export then exports else imports)
  {
    var (cut, comment) := ExtractComment(line);
    var d := ParseDirection(cut).value;
    var parts := Split(cut, if d == Export then "->" else "<-");
    ParseRightSound(parts[1], comment, d, ParseLeft(parts[0]).value);
  }

  /** A reader of lines whose ports satisfy `ok` and carry the index they are given. */
  ghost predicate Reads(read: (string, nat, nat) -> Result<VMPort, PortError>, ok: VMPort -> bool) {
    forall line, i: nat, e: nat | read(line, i, e).Ok? ::
      ok(read(line, i, e).value) &&
      read(line, i, e).value.index == (if read(line, i, e).value.direction == Export then e else i)
  }

  lemma DistinctSnoc(ports: seq<VMPort>, p: VMPort)
    requires Distinct(ports) && !DuplicateOf(p, ports)
    ensures Distinct(ports + [p])
  {
    assert forall i | 0 <= i < |ports| :: ports[i] in ports;
  }

  lemma SoundSnoc(ports: seq<VMPort>, p: VMPort)
    requires Distinct(ports) && Indexed(ports) && !DuplicateOf(p, ports)
    requires p.index == CountDirection(ports, p.direction)
    ensures Distinct(ports + [p]) && Indexed(ports + [p])
  {
    DistinctSnoc(ports, p);
    forall i | 0 <= i <= |ports|
      ensures (ports + [p])[i].index == CountDirection((ports + [p])[..i], (ports + [p])[i].direction)
    {
      assert (ports + [p])[..i] == ports[..i];
      assert ports[..|ports|] == ports;
    }
  }

  lemma {:induction false} ReadPortsSound(read: (string, nat, nat) -> Result<VMPort, PortError>,
                                          ok: VMPort -> bool, lines: seq<string>)
    requires Reads(read, ok) && ReadPorts(read, lines).Ok?
    ensures var ports := ReadPorts(read, lines).value;
      |ports| == |lines| && (forall p | p in ports :: ok(p)) && Distinct(ports) && Indexed(ports)
  {
    if lines != [] {
      ReadPortsSound(read, ok, lines[..|lines| - 1]);
      var before := ReadPorts(read, lines[..|lines| - 1]).value;
      var p := read(lines[|lines| - 1], CountDirection(before, Import), CountDirection(before, Export)).value;
      SoundSnoc(before, p);
    }
  }

  /** Every successful parse gives distinct, well-formed ports whose indices count 0, 1, 2, …
      separately for imports and exports, in the order of the list. */
  lemma PortArraySound(lines: seq<string>)
    requires PortArray(lines).Ok?
    ensures var ports := PortArray(lines).value;
      (forall p | p in ports :: WellFormed(p)) && Distinct(ports) && Indexed(ports)
  {
    forall line, i: nat, e: nat | ParseLine(line, i, e).Ok?
      ensures WellFormed(ParseLine(line, i, e).value)
      ensures ParseLine(line, i, e).value.index == (if ParseLine(line, i, e).value.direction == Export then e else i)
    {
      ParseLineSound(line, i, e);
    }
    ReadPortsSound(ParseLine, WellFormed, Explode(lines).value);
  }

  /** Indices grow strictly within a direction, so they tell its ports apart. */
  lemma {:induction false} IndicesDistinct(ports: seq<VMPort>, i: nat, j: nat)
    requires Indexed(ports) && i < j < |ports| && ports[i].direction == ports[j].direction
    ensures ports[i].index < ports[j].index
  {
    CountGrows(ports, i + 1, j, ports[i].direction);
    assert ports[..i + 1][..i] == ports[..i];
  }

  lemma {:induction false} CountGrows(ports: seq<VMPort>, i: nat, j: nat, d: Direction)
    requires i <= j <= |ports|
    ensures CountDirection(ports[..i], d) <= CountDirection(ports[..j], d) <= j
    decreases j
  {
    if j > 0 {
      assert ports[..j][..j - 1] == ports[..j - 1];
      CountGrows(ports, if i < j then i else j - 1, j - 1, d);
    }
  }

  // -- printing then parsing ------------------------------------------------

  function Strings(ports: seq<VMPort>): seq<string> {
    seq(|ports|, i requires 0 <= i < |ports| => ports[i].String())
  }

  /** The same ports without PROXY ports, indexed anew by their position. */
  function Reread(ports: seq<VMPort>): seq<VMPort> {
    seq(|ports|, i requires 0 <= i < |ports| =>
      ports[i].(index := CountDirection(ports[..i], ports[i].direction), proxyPort := 0))
  }

  lemma NoRangeScanned(digits: string, rest: string)
    requires AllDigits(digits)
    ensures ScanRange(digits + ("/" + rest)) == None
  {
    LeadingDigitsOf(digits, "/" + rest);
    assert (digits + ("/" + rest))[|digits|..] == "/" + rest;
  }

  predicate NoSpace(s: string) {
    forall c | c in s :: !IsSpace(c)
  }

  lemma ExtractKeepsStart(s: string, start: string)
    requires start <= s && NoSpace(start)
    ensures start <= ExtractComment(s).0
  {
    forall i | 0 <= i < |start| ensures s[i] != ' ' {
      assert s[i] == start[i] && start[i] in start;
    }
  }

  lemma CutText(digits: string, rest: string) returns (tail: string)
    requires AllDigits(digits)
    ensures TrimSpace(ExtractComment(digits + "/tcp" + rest).0) == digits + ("/" + tail)
  {
    var s, start := digits + "/tcp" + rest, digits + "/";
    assert start <= s;
    ExtractKeepsStart(s, start);
    TrimKeepsStart(ExtractComment(s).0, start);
    var line := TrimSpace(ExtractComment(s).0);
    tail := line[|start|..];
    assert line == digits + ("/" + tail);
  }

  lemma NotScanned(s: string)
    requires ScanRange(TrimSpace(ExtractComment(s).0)) == None
    ensures Expand(s) == Ok([s])
  {
  }

  /** A text that starts like a single port is not taken for a range, whatever follows. */
  lemma NotARange(n: nat, rest: string)
    ensures Expand(Itoa(n) + "/tcp" + rest) == Ok([Itoa(n) + "/tcp" + rest])
  {
    var tail := CutText(Itoa(n), rest);
    NoRangeScanned(Itoa(n), tail);
    NotScanned(Itoa(n) + "/tcp" + rest);
  }

  /** Trimming does not touch a text up to its first space. */
  lemma TrimKeepsStart(s: string, start: string)
    requires start <= s && start != "" && NoSpace(start)
    ensures start <= TrimSpace(s)
  {
    assert s[0] == start[0];
    TrimRightKeepsStart(s, start);
  }

  lemma {:induction false} TrimRightKeepsStart(s: string, start: string)
    requires start <= s && NoSpace(start)
    ensures start <= TrimRight(s)
  {
    if start == s {
      assert s != "" ==> s[|s| - 1] in start;
    } else if IsSpace(s[|s| - 1]) {
      TrimRightKeepsStart(s[..|s| - 1], start);
    }
  }

  lemma {:induction false} ReplaceSingles(expand: string -> Result<seq<string>, PortError>, lines: seq<string>)
    requires forall i | 0 <= i < |lines| :: expand(lines[i]) == Ok([lines[i]])
    ensures ReplaceLines(expand, lines) == Ok(lines)
  {
    if lines != [] {
      ReplaceSingles(expand, lines[..|lines| - 1]);
      assert lines == lines[..|lines| - 1] + [lines[|lines| - 1]];
    }
  }

  /** A port without PROXY port, placed after the given numbers of imports and exports. */
  function Placed(p: VMPort, imports: nat, exports: nat): VMPort {
    p.(index := if p.direction == Export then exports else imports, proxyPort := 0)
  }

  /** Reading back ports from lines that read as these ports, up to index and PROXY port. */
  lemma {:induction false} ReadOfPorts(read: (string, nat, nat) -> Result<VMPort, PortError>,
                                       lines: seq<string>, ports: seq<VMPort>)
    requires |lines| == |ports| && Distinct(ports)
    requires forall k, i: nat, e: nat | 0 <= k < |ports| :: read(lines[k], i, e) == Ok(Placed(ports[k], i, e))
    ensures ReadPorts(read, lines) == Ok(Reread(ports))
  {
    if ports != [] {
      var n := |ports| - 1;
      var before := ports[..n];
      ReadOfPorts(read, lines[..n], before);
      RereadSnoc(ports);
      RereadCounts(before, Import);
      RereadCounts(before, Export);
      var last := Placed(ports[n], CountDirection(before, Import), CountDirection(before, Export));
      assert read(lines[n], CountDirection(before, Import), CountDirection(before, Export)) == Ok(last);
      assert !DuplicateOf(last, Reread(before)) by {
        assert forall i | 0 <= i < n :: Reread(before)[i].Identity() == ports[i].Identity();
      }
    } else {
      assert Reread(ports) == [];
    }
  }

  lemma RereadSnoc(ports: seq<VMPort>)
    requires ports != []
    ensures var before := ports[..|ports| - 1];
      Reread(ports) == Reread(before)
        + [Placed(ports[|ports| - 1], CountDirection(before, Import), CountDirection(before, Export))]
  {
    assert forall i | 0 <= i < |ports| - 1 :: ports[..|ports| - 1][..i] == ports[..i];
  }

  lemma {:induction false} RereadCounts(ports: seq<VMPort>, d: Direction)
    ensures CountDirection(Reread(ports), d) == CountDirection(ports, d)
  {
    if ports != [] {
      RereadSnoc(ports);
      RereadCounts(ports[..|ports| - 1], d);
      assert Reread(ports)[..|ports| - 1] == Reread(ports[..|ports| - 1]);
    }
  }

  /** Printing then parsing: any list of distinct well-formed ports is read back in order, with
      indices recomputed and no PROXY port. */
  lemma RoundTrip(ports: seq<VMPort>)
    requires (forall p | p in ports :: WellFormed(p)) && Distinct(ports)
    ensures PortArray(Strings(ports)) == Ok(Reread(ports))
  {
    forall i | 0 <= i < |ports| ensures Expand(Strings(ports)[i]) == Ok([Strings(ports)[i]]) {
      assert ports[i] in ports;
      StringIsSingle(ports[i]);
    }
    ReplaceSingles(Expand, Strings(ports));
    StringsRead(ports);
    ReadOfPorts(ParseLine, Strings(ports), ports);
  }

  lemma Regroup(a: string, b: string, c: string)
    ensures a + b + c == a + (b + c)
  {
  }

  lemma StringIsSingle(p: VMPort)
    requires WellFormed(p)
    ensures Expand(p.String()) == Ok([p.String()])
  {
    NotARange(p.port, p.Arrow() + p.Right());
    Regroup(Itoa(p.port) + "/tcp", p.Arrow(), p.Right());
  }

  lemma StringsRead(ports: seq<VMPort>)
    requires forall p | p in ports :: WellFormed(p)
    ensures forall k, i: nat, e: nat | 0 <= k < |ports| ::
      ParseLine(Strings(ports)[k], i, e) == Ok(Placed(ports[k], i, e))
  {
    forall k, i: nat, e: nat | 0 <= k < |ports|
      ensures ParseLine(Strings(ports)[k], i, e) == Ok(Placed(ports[k], i, e))
    {
      assert ports[k] in ports;
      ParseOfString(ports[k], i, e);
    }
  }

  // -- ranges ---------------------------------------------------------------

  /** The list with each line that `expand` accepts replaced by its lines. */
  function WriteOutWith(expand: string -> Result<seq<string>, PortError>, lines: seq<string>): seq<string> {
    if lines == [] then []
    else
      var last := expand(lines[|lines| - 1]);
      WriteOutWith(expand, lines[..|lines| - 1]) + (if last.Ok? then last.value else [lines[|lines| - 1]])
  }

  /** The list with each accepted range replaced by its lines. */
  function WriteOut(lines: seq<string>): seq<string> {
    WriteOutWith(Expand, lines)
  }

  lemma AtoiOfDigits(s: string)
    requires AllDigits(s)
    ensures Atoi(s).Some? ==> Atoi(s).value >= 0
  {
    assert s != "" ==> IsDigit(s[0]);
  }

  lemma ScannedDigits(line: string)
    requires ScanRange(line).Some?
    ensures var t := ScanRange(line).value;
      AllDigits(t.srcStart) && AllDigits(t.dstStart) && t.arrow in {"<-", "->"}
      && t.group != [] && t.group[0] == '@' && AllWordChars(t.group[1..])
  {
  }

  lemma RangeSound(orgLine: string)
    requires ReadRange(orgLine).Ok? && ReadRange(orgLine).value.Some?
    ensures var range := ReadRange(orgLine).value.value;
      range.start >= 0 && range.dst >= 0 && 2 <= range.size <= MAX_RANGE_SIZE && range.arrow in {"<-", "->"}
      && range.group != [] && range.group[0] == '@' && AllWordChars(range.group[1..])
      && range.comment == ExtractComment(orgLine).1
  {
    var line := TrimSpace(ExtractComment(orgLine).0);
    ScannedDigits(line);
    AtoiOfDigits(ScanRange(line).value.srcStart);
    AtoiOfDigits(ScanRange(line).value.dstStart);
  }

  lemma LineIsSingle(range: PortRange, i: nat)
    requires range.start >= 0
    ensures Expand(range.Line(i)) == Ok([range.Line(i)])
  {
    NotARange(range.start + i, range.AfterPort(i));
  }

  lemma RangeIsSingles(range: PortRange)
    requires range.start >= 0
    ensures Explode(range.Lines()) == Ok(range.Lines())
  {
    forall i | 0 <= i < |range.Lines()| ensures Expand(range.Lines()[i]) == Ok([range.Lines()[i]]) {
      LineIsSingle(range, i);
    }
    ReplaceSingles(Expand, range.Lines());
  }

  /** The lines of a range stand for themselves. */
  lemma LinesAreSingles(orgLine: string)
    requires Expand(orgLine).Ok?
    ensures Explode(Expand(orgLine).value) == Expand(orgLine)
  {
    if ReadRange(orgLine).value.Some? {
      RangeSound(orgLine);
      RangeIsSingles(ReadRange(orgLine).value.value);
    } else {
      ReplaceSingles(Expand, [orgLine]);
    }
  }

  lemma {:induction false} ReplaceAppend(expand: string -> Result<seq<string>, PortError>,
                                         a: seq<string>, b: seq<string>)
    ensures ReplaceLines(expand, a + b) ==
      var x, y := ReplaceLines(expand, a), ReplaceLines(expand, b);
      if x.Err? then x else if y.Err? then y else Ok(x.value + y.value)
  {
    if b == [] {
      assert a + b == a;
      assert ReplaceLines(expand, a).Ok? ==> ReplaceLines(expand, a).value + [] == ReplaceLines(expand, a).value;
    } else {
      var n := |b| - 1;
      ReplaceAppend(expand, a, b[..n]);
      assert (a + b)[..|a + b| - 1] == a + b[..n];
      var x, y, last := ReplaceLines(expand, a), ReplaceLines(expand, b[..n]), expand(b[n]);
      if x.Ok? && y.Ok? && last.Ok? {
        assert (x.value + y.value) + last.value == x.value + (y.value + last.value);
      }
    }
  }

  lemma {:induction false} WrittenOut(expand: string -> Result<seq<string>, PortError>, lines: seq<string>)
    requires forall line | expand(line).Ok? :: ReplaceLines(expand, expand(line).value) == expand(line)
    ensures ReplaceLines(expand, WriteOutWith(expand, lines)) == ReplaceLines(expand, lines)
  {
    if lines != [] {
      var before, last := lines[..|lines| - 1], lines[|lines| - 1];
      WrittenOut(expand, before);
      var tail := if expand(last).Ok? then expand(last).value else [last];
      ReplaceAppend(expand, WriteOutWith(expand, before), tail);
      assert ReplaceLines(expand, [last]) == expand(last) || expand(last).Ok?;
    }
  }

  /** A list that contains ranges parses to the same ports, or fails with the same error, as
      the list with each accepted range written out as single lines. */
  lemma RangesAreWrittenOut(lines: seq<string>)
    ensures PortArray(WriteOut(lines)) == PortArray(lines)
  {
    forall line | Expand(line).Ok? ensures ReplaceLines(Expand, Expand(line).value) == Expand(line) {
      LinesAreSingles(line);
    }
    WrittenOut(Expand, lines);
  }
}
