/** What an accepted port range means: the ports it stands for. */
module RangeMeaning {
  import opened Results
  import opened Text
  import opened VMPorts
  import opened PortArrays

  predicate LineFits(range: PortRange, i: nat) {
    && 1 <= range.start + i <= MAX_PORT
    && if range.group == PUBLIC
       then range.arrow == "->" && 1 <= range.dst + i <= MAX_PORT && ParseProxy(range.comment).Ok?
       else !HasPrefix(range.group, PUBLIC) && range.start == range.dst
  }

  function RangeDirection(range: PortRange): Direction {
    if range.arrow == "->" then Export else Import
  }

  /** The i-th port of a range, given its index. */
  function RangePort(range: PortRange, i: nat, index: nat): VMPort
    requires LineFits(range, i)
  {
    if range.group == PUBLIC
    then VMPort(range.start + i, TCP, Export, index, PUBLIC, range.dst + i, ParseProxy(range.comment).value)
    else VMPort(range.start + i, TCP, RangeDirection(range), index, ToLower(range.group), 0, 0)
  }

  /** What ReadRange guarantees of a range. */
  predicate Recognised(range: PortRange) {
    && range.start >= 0 && range.dst >= 0 && 2 <= range.size <= MAX_RANGE_SIZE && range.arrow in {"<-", "->"}
    && range.group != [] && range.group[0] == '@' && AllWordChars(range.group[1..])
    && CleanComment(range.comment)
  }

  // -- the comment is carried over unchanged --------------------------------

  /** A comment that no later space could have cut. */
  predicate CleanComment(c: string) {
    '\n' !in c && forall j | 0 <= j < |c| && c[j] == ' ' :: !IsComment(c[j + 1..] + ")")
  }

  lemma ExtractedIsClean(line: string)
    ensures CleanComment(ExtractComment(line).1)
  {
    var i, c := CommentSpace(line, |line|), ExtractComment(line).1;
    if c != "" {
      assert c == line[i + 2..|line| - 1];
      forall j | 0 <= j < |c| && c[j] == ' ' ensures !IsComment(c[j + 1..] + ")") {
        assert !CommentAt(line, i + 2 + j);
        assert line[i + 2 + j + 1..] == c[j + 1..] + ")";
      }
    }
  }

  lemma ExtractSuffix(base: string, c: string)
    requires '\n' !in base && CleanComment(c)
    ensures ExtractComment(base + (" (" + c + ")")) == (base, c)
  {
    var s, n := base + (" (" + c + ")"), |base|;
    SuffixSpace(base, c, s);
    assert s[..n] == base && s[n + 1..] == "(" + c + ")";
    assert ("(" + c + ")")[1..|c| + 1] == c;
  }

  lemma SuffixSpace(base: string, c: string, s: string)
    requires CleanComment(c) && s == base + (" (" + c + ")")
    ensures CommentSpace(s, |s|) == |base|
  {
    var n := |base|;
    assert s[n + 1..] == "(" + c + ")";
    assert CommentAt(s, n);
    forall j | n < j < |s| ensures !CommentAt(s, j) {
      if n + 2 <= j < |s| - 1 {
        assert s[j] == c[j - n - 2] && s[j + 1..] == c[j - n - 2 + 1..] + ")";
      }
    }
  }

  lemma ExtractNothing(a: string, arrow: string, target: string)
    requires ' ' !in a && ' ' !in arrow && ' ' !in target && arrow != "" && target != ""
    requires arrow[0] != '(' && target[0] != '('
    ensures ExtractComment(a + " " + arrow + " " + target) == (a + " " + arrow + " " + target, "")
  {
  }

  // -- one line of the range ------------------------------------------------

  lemma TargetIsPlain(range: PortRange, i: nat)
    requires Recognised(range)
    ensures var t := range.Target(i); t != "" && t[0] == '@' && Plain(t) && !IsSpace(t[|t| - 1])
  {
    assert range.group == ['@'] + range.group[1..];
    var digits := Itoa(range.dst + i);
    assert IsDigit(digits[|digits| - 1]);
    assert |range.group| > 1 ==> range.group[|range.group| - 1] in range.group[1..];
  }

  lemma RegroupSuffix(a: string, arrow: string, target: string, suffix: string)
    ensures a + (" " + arrow + " " + target + suffix) == (a + " " + arrow + " " + target) + suffix
    ensures a + " " + arrow + " " + target == (a + " ") + arrow + (" " + target)
  {
  }

  predicate NoneOf(s: string) {
    ' ' !in s && '\n' !in s && '-' !in s && '<' !in s && '>' !in s
  }

  lemma PlainIsNoneOf(s: string)
    requires Plain(s)
    ensures NoneOf(s)
  {
  }

  lemma CutSpaced(a: string, arrow: string, target: string, comment: string)
    requires NoneOf(a) && arrow in {"<-", "->"} && NoneOf(target) && target != "" && target[0] == '@'
    requires CleanComment(comment)
    ensures var base := a + " " + arrow + " " + target;
      ExtractComment(base + (if comment == "" then "" else " (" + comment + ")")) == (base, comment)
  {
    var base := a + " " + arrow + " " + target;
    if comment == "" {
      ExtractNothing(a, arrow, target);
      assert base + "" == base;
    } else {
      ExtractSuffix(base, comment);
    }
  }

  lemma SplitSpaced(a: string, arrow: string, target: string)
    requires NoneOf(a) && arrow in {"<-", "->"} && NoneOf(target)
    ensures var base := a + " " + arrow + " " + target;
      && ParseDirection(base) == Some(if arrow == "->" then Export else Import)
      && Split(base, arrow) == [a + " ", " " + target]
  {
    RegroupSuffix(a, arrow, target, "");
    SplitInTwo(a + " ", arrow, " " + target);
    if arrow == "<-" {
      NotContained(a + " " + arrow + " " + target, "->", '>');
    }
  }

  lemma NumberIsNoneOf(n: nat)
    ensures NoneOf(Itoa(n) + "/tcp")
  {
  }

  lemma CutLine(range: PortRange, i: nat)
    requires Recognised(range)
    ensures ExtractComment(range.Line(i))
      == (Itoa(range.start + i) + "/tcp" + " " + range.arrow + " " + range.Target(i), range.comment)
  {
    var a, target := Itoa(range.start + i) + "/tcp", range.Target(i);
    TargetIsPlain(range, i);
    PlainIsNoneOf(target);
    NumberIsNoneOf(range.start + i);
    RegroupSuffix(a, range.arrow, target, range.Suffix());
    CutSpaced(a, range.arrow, target, range.comment);
  }

  /** A text cut into `a arrow target` and a comment is parsed from its two sides. */
  lemma SidesOfText(s: string, a: string, arrow: string, target: string, comment: string, imports: nat, exports: nat)
    requires NoneOf(a) && arrow in {"<-", "->"} && NoneOf(target)
    requires ExtractComment(s) == (a + " " + arrow + " " + target, comment)
    ensures var d := if arrow == "->" then Export else Import;
      ParseLine(s, imports, exports)
        == ParseSides(a + " ", " " + target, comment, d, if d == Export then exports else imports)
  {
    SplitSpaced(a, arrow, target);
  }

  lemma SidesOfLine(range: PortRange, i: nat, imports: nat, exports: nat)
    requires Recognised(range)
    ensures ParseLine(range.Line(i), imports, exports) ==
      ParseSides(Itoa(range.start + i) + "/tcp" + " ", " " + range.Target(i), range.comment,
                 RangeDirection(range), if RangeDirection(range) == Export then exports else imports)
  {
    CutLine(range, i);
    TargetIsPlain(range, i);
    PlainIsNoneOf(range.Target(i));
    NumberIsNoneOf(range.start + i);
    SidesOfText(range.Line(i), Itoa(range.start + i) + "/tcp", range.arrow, range.Target(i), range.comment,
                imports, exports);
  }

  lemma TrimPadded(s: string)
    requires s != "" && !IsSpace(s[0]) && !IsSpace(s[|s| - 1])
    ensures TrimSpace(s + " ") == s && TrimSpace(" " + s) == s
  {
    assert (s + " ")[..|s|] == s && (" " + s)[1..] == s;
    TrimNothing(s);
  }

  lemma AtoiNat(n: nat)
    ensures Atoi(Itoa(n)) == if n <= MAX_INT then Some(n) else None
  {
    assert IsDigit(Itoa(n)[0]);
  }

  lemma TrimLeftSide(n: nat)
    ensures TrimSpace(ToLower(Itoa(n) + "/tcp" + " ")) == Itoa(n) + "/" + "tcp"
  {
    var s := Itoa(n) + "/tcp";
    assert IsDigit(Itoa(n)[0]) && s[0] == Itoa(n)[0];
    LowerNothing(s + " ");
    TrimPadded(s);
  }

  lemma NumberInBounds(n: nat)
    ensures ParseNumber(Itoa(n)).Ok? <==> 1 <= n <= MAX_PORT
    ensures ParseNumber(Itoa(n)).Ok? ==> ParseNumber(Itoa(n)).value == n
  {
    AtoiNat(n);
  }

  lemma ParseRangeLeft(n: nat)
    ensures ParseLeft(Itoa(n) + "/tcp" + " ") == ParseNumber(Itoa(n))
  {
    TrimLeftSide(n);
    SplitInTwo(Itoa(n), "/", "tcp");
  }

  lemma LowerWord(s: string)
    requires AllWordChars(s)
    ensures AllWordChars(ToLower(s))
  {
  }

  lemma PrivateTarget(range: PortRange, i: nat)
    requires Recognised(range) && !HasPrefix(range.group, PUBLIC)
    ensures !HasPrefix(range.Target(i), PUBLIC)
    ensures IsValidGroupName(ToLower(range.Target(i))) <==> range.start == range.dst
  {
    var t := range.Target(i);
    assert t[..|range.group|] == range.group;
    assert range.group == ['@'] + range.group[1..];
    if range.start != range.dst {
      assert ToLower(t)[1..][|range.group| - 1] == ':' && !IsWordChar(':');
      PrefixBeforeColon(range.group, Itoa(range.dst + i));
    } else {
      assert t == range.group;
      LowerWord(range.group[1..]);
      assert ToLower(t)[1..] == ToLower(range.group[1..]);
    }
  }

  lemma PrefixBeforeColon(group: string, digits: string)
    ensures HasPrefix(group + (":" + digits), PUBLIC) <==> HasPrefix(group, PUBLIC)
  {
    var t := group + (":" + digits);
    if |group| < |PUBLIC| {
      assert t[|group|] == ':' != PUBLIC[|group|];
    } else {
      assert t[..|PUBLIC|] == group[..|PUBLIC|];
    }
  }

  lemma NoColon(range: PortRange)
    requires Recognised(range)
    ensures ':' !in range.group
  {
    assert range.group == ['@'] + range.group[1..];
  }

  lemma PublicParts(range: PortRange, i: nat)
    requires Recognised(range)
    ensures Split(range.Target(i), ":") == TargetParts(range, i)
  {
    NoColon(range);
    if range.start == range.dst {
      assert range.Target(i) == range.group;
      SplitInOne(range.group, ":");
    } else {
      SplitTarget(range.group, Itoa(range.dst + i), range.Target(i));
    }
  }

  lemma SplitTarget(group: string, number: string, target: string)
    requires ':' !in group && ':' !in number && target == group + (":" + number)
    ensures Split(target, ":") == [group, number]
  {
    assert target == group + ":" + number;
    SplitInTwo(group, ":", number);
  }

  lemma PublicTarget(range: PortRange, i: nat)
    requires Recognised(range) && HasPrefix(range.group, PUBLIC)
    ensures HasPrefix(range.Target(i), PUBLIC)
  {
  }

  /** How the parts of a public group decide the result. */
  predicate PublicAs(r: Result<(string, nat, nat), PortError>, parts: seq<string>, comment: string, d: Direction,
                     port: nat)
    requires 1 <= |parts| <= 2
  {
    && (r.Ok? <==> d == Export && parts[0] == PUBLIC && (|parts| == 2 ==> ParseNumber(parts[1]).Ok?)
                   && ParseProxy(comment).Ok?)
    && (r.Ok? ==> r.value.0 == PUBLIC && r.value.2 == ParseProxy(comment).value)
    && (r.Ok? ==> r.value.1 == if |parts| == 1 then port else ParseNumber(parts[1]).value)
  }

  lemma PublicRight(right: string, target: string, parts: seq<string>, comment: string, d: Direction, port: nat)
    requires TrimSpace(right) == target && HasPrefix(target, PUBLIC) && Split(target, ":") == parts && 1 <= |parts| <= 2
    ensures PublicAs(ParseRight(right, comment, d, port), parts, comment, d, port)
  {
  }

  /** The parts of the i-th target of a range. */
  function TargetParts(range: PortRange, i: nat): (parts: seq<string>)
    requires range.dst >= 0
    ensures 1 <= |parts| <= 2
  {
    if range.start == range.dst then [range.group] else [range.group, Itoa(range.dst + i)]
  }

  lemma PublicReads(range: PortRange, i: nat, r: Result<(string, nat, nat), PortError>)
    requires range.dst >= 0 && 1 <= range.start + i <= MAX_PORT && HasPrefix(range.group, PUBLIC)
    requires range.arrow in {"<-", "->"}
    requires PublicAs(r, TargetParts(range, i), range.comment, RangeDirection(range), range.start + i)
    ensures RightReads(range, i, r)
  {
    NumberInBounds(range.dst + i);
  }

  lemma ParsePublicRight(range: PortRange, i: nat)
    requires Recognised(range) && 1 <= range.start + i <= MAX_PORT && HasPrefix(range.group, PUBLIC)
    requires TrimSpace(" " + range.Target(i)) == range.Target(i)
    ensures RightReads(range, i,
      ParseRight(" " + range.Target(i), range.comment, RangeDirection(range), range.start + i))
  {
    PublicTarget(range, i);
    PublicParts(range, i);
    PublicRight(" " + range.Target(i), range.Target(i), TargetParts(range, i),
                range.comment, RangeDirection(range), range.start + i);
    PublicReads(range, i, ParseRight(" " + range.Target(i), range.comment, RangeDirection(range), range.start + i));
  }

  lemma PrivateRight(right: string, target: string, comment: string, d: Direction, port: nat)
    requires TrimSpace(right) == target && !HasPrefix(target, PUBLIC)
    ensures var r := ParseRight(right, comment, d, port);
      (r.Ok? <==> IsValidGroupName(ToLower(target))) && (r.Ok? ==> r.value == (ToLower(target), 0, 0))
  {
  }

  /** What the right side of the i-th line must be read as. */
  predicate RightReads(range: PortRange, i: nat, r: Result<(string, nat, nat), PortError>) {
    && (r.Ok? <==> LineFits(range, i))
    && (r.Ok? ==> var p := RangePort(range, i, 0); r.value == (p.group, p.publicPort, p.proxyPort))
  }

  lemma ParsePrivateRight(range: PortRange, i: nat)
    requires Recognised(range) && 1 <= range.start + i <= MAX_PORT && !HasPrefix(range.group, PUBLIC)
    requires TrimSpace(" " + range.Target(i)) == range.Target(i)
    ensures RightReads(range, i,
      ParseRight(" " + range.Target(i), range.comment, RangeDirection(range), range.start + i))
  {
    PrivateTarget(range, i);
    PrivateRight(" " + range.Target(i), range.Target(i), range.comment, RangeDirection(range), range.start + i);
    assert range.start == range.dst ==> range.Target(i) == range.group;
  }

  lemma ParseRangeRight(range: PortRange, i: nat)
    requires Recognised(range) && 1 <= range.start + i <= MAX_PORT
    ensures RightReads(range, i,
      ParseRight(" " + range.Target(i), range.comment, RangeDirection(range), range.start + i))
  {
    TargetIsPlain(range, i);
    TrimPadded(range.Target(i));
    if HasPrefix(range.group, PUBLIC) {
      ParsePublicRight(range, i);
    } else {
      ParsePrivateRight(range, i);
    }
  }

  /** What the left side of the line for port `n` must be read as. */
  predicate LeftReads(n: nat, r: Result<nat, PortError>) {
    if 1 <= n <= MAX_PORT then r == Ok(n) else r.Err?
  }

  lemma LeftRead(n: nat)
    ensures LeftReads(n, ParseLeft(Itoa(n) + "/tcp" + " "))
  {
    ParseRangeLeft(n);
    NumberInBounds(n);
  }

  /** What the i-th line must be read as. */
  predicate LineReads(range: PortRange, i: nat, index: nat, r: Result<VMPort, PortError>) {
    (r.Ok? <==> LineFits(range, i)) && (LineFits(range, i) ==> r == Ok(RangePort(range, i, index)))
  }

  lemma LineFromSides(range: PortRange, i: nat, index: nat, left: Result<nat, PortError>,
                      right: Result<(string, nat, nat), PortError>, r: Result<VMPort, PortError>)
    requires range.start >= 0 && range.arrow in {"<-", "->"} && LeftReads(range.start + i, left)
    requires left.Ok? ==> RightReads(range, i, right)
    requires r.Ok? <==> left.Ok? && right.Ok?
    requires r.Ok? ==>
      r.value == VMPort(left.value, TCP, RangeDirection(range), index, right.value.0, right.value.1, right.value.2)
    ensures LineReads(range, i, index, r)
  {
  }

  lemma SidesRead(range: PortRange, i: nat, index: nat, left: string, right: string)
    requires range.start >= 0 && range.arrow in {"<-", "->"} && LeftReads(range.start + i, ParseLeft(left))
    requires 1 <= range.start + i <= MAX_PORT ==>
      RightReads(range, i, ParseRight(right, range.comment, RangeDirection(range), range.start + i))
    ensures LineReads(range, i, index, ParseSides(left, right, range.comment, RangeDirection(range), index))
  {
    var port := ParseLeft(left);
    var g := if port.Ok? then ParseRight(right, range.comment, RangeDirection(range), port.value) else Err(OutOfBounds);
    SidesFrom(left, right, range.comment, RangeDirection(range), index, port, g);
    LineFromSides(range, i, index, port, g, ParseSides(left, right, range.comment, RangeDirection(range), index));
  }

  lemma SidesFrom(left: string, right: string, comment: string, d: Direction, index: nat,
                  port: Result<nat, PortError>, g: Result<(string, nat, nat), PortError>)
    requires ParseLeft(left) == port
    requires port.Ok? ==> ParseRight(right, comment, d, port.value) == g
    ensures var r := ParseSides(left, right, comment, d, index);
      (r.Ok? <==> port.Ok? && g.Ok?) &&
      (r.Ok? ==> r.value == VMPort(port.value, TCP, d, index, g.value.0, g.value.1, g.value.2))
  {
  }

  lemma ParseRangeLine(range: PortRange, i: nat, imports: nat, exports: nat)
    requires Recognised(range)
    ensures ParseLine(range.Line(i), imports, exports).Ok? <==> LineFits(range, i)
    ensures LineFits(range, i) ==>
      ParseLine(range.Line(i), imports, exports)
        == Ok(RangePort(range, i, if RangeDirection(range) == Export then exports else imports))
  {
    SidesOfLine(range, i, imports, exports);
    LeftRead(range.start + i);
    if 1 <= range.start + i <= MAX_PORT {
      ParseRangeRight(range, i);
    }
    SidesRead(range, i, if RangeDirection(range) == Export then exports else imports,
              Itoa(range.start + i) + "/tcp" + " ", " " + range.Target(i));
  }

  // -- the whole range ------------------------------------------------------

  predicate RangeFits(range: PortRange) {
    forall i | 0 <= i < range.size :: LineFits(range, i)
  }

  function RangePorts(range: PortRange): seq<VMPort>
    requires RangeFits(range)
  {
    seq(range.size, i requires 0 <= i < range.size => RangePort(range, i, i))
  }

  lemma LastIsNew(ports: seq<VMPort>)
    requires Distinct(ports) && ports != []
    ensures !DuplicateOf(ports[|ports| - 1], ports[..|ports| - 1])
  {
  }

  /** Lines that read as distinct ports of one direction, when each is read at its position. */
  lemma {:induction false} ReadFirst(read: (string, nat, nat) -> Result<VMPort, PortError>,
                                     lines: seq<string>, ports: seq<VMPort>, d: Direction)
    requires |lines| == |ports| && Distinct(ports)
    requires forall i | 0 <= i < |ports| :: ports[i].direction == d
    requires forall k: nat, i: nat, e: nat | k < |ports| && k == (if d == Import then i else e) ::
      read(lines[k], i, e) == Ok(ports[k])
    ensures ReadPorts(read, lines) == Ok(ports) && CountDirection(ports, d) == |ports|
  {
    if ports != [] {
      var n := |ports| - 1;
      ReadFirst(read, lines[..n], ports[..n], d);
      assert lines == lines[..n] + [lines[n]] && ports == ports[..n] + [ports[n]];
      ReadOneMore(read, lines[..n], lines[n]);
      LastIsNew(ports);
    }
  }

  lemma {:induction false} ReadStops(read: (string, nat, nat) -> Result<VMPort, PortError>, lines: seq<string>, k: nat)
    requires k < |lines| && forall i: nat, e: nat :: read(lines[k], i, e).Err?
    ensures ReadPorts(read, lines).Err?
  {
    ReadFails(read, lines, k + 1);
    assert lines[..k + 1][..k] == lines[..k];
  }

  lemma RangePortsDistinct(range: PortRange)
    requires RangeFits(range)
    ensures Distinct(RangePorts(range))
  {
  }

  /** A range is accepted by itself exactly when all its ports are in bounds, its group is
      private and not renumbered or the group of public exports, and its PROXY port is a
      number; it then stands for consecutive ports, mapped to consecutive public ports. */
  lemma MeaningOfRange(line: string)
    requires ReadRange(line).Ok? && ReadRange(line).value.Some?
    ensures var range := ReadRange(line).value.value;
      && (PortArray([line]).Ok? <==> RangeFits(range))
      && (RangeFits(range) ==> PortArray([line]) == Ok(RangePorts(range)))
  {
    RangeSound(line);
    ExtractedIsClean(line);
    var range := ReadRange(line).value.value;
    ReplaceOne(Expand, line);
    RangeIsRead(range);
  }

  lemma ReplaceOne(expand: string -> Result<seq<string>, PortError>, line: string)
    ensures ReplaceLines(expand, [line]) == expand(line)
  {
    assert ReplaceLines(expand, [line][..0]) == Ok([]);
    assert expand(line).Ok? ==> [] + expand(line).value == expand(line).value;
  }

  /** A reader that reads each line of a range as MeaningOfRange says. */
  ghost predicate ReadsRange(read: (string, nat, nat) -> Result<VMPort, PortError>, range: PortRange) {
    forall k: nat, i: nat, e: nat | k < range.size ::
      (read(range.Line(k), i, e).Ok? <==> LineFits(range, k)) &&
      (LineFits(range, k) ==>
        read(range.Line(k), i, e) == Ok(RangePort(range, k, if RangeDirection(range) == Export then e else i)))
  }

  lemma LinesAreRead(read: (string, nat, nat) -> Result<VMPort, PortError>, range: PortRange)
    requires ReadsRange(read, range) && (range.group == PUBLIC ==> range.arrow == "->" || !RangeFits(range))
    ensures ReadPorts(read, range.Lines()).Ok? <==> RangeFits(range)
    ensures RangeFits(range) ==> ReadPorts(read, range.Lines()) == Ok(RangePorts(range))
  {
    if RangeFits(range) {
      RangePortsDistinct(range);
      ReadFirst(read, range.Lines(), RangePorts(range), RangeDirection(range));
    } else {
      var k :| 0 <= k < range.size && !LineFits(range, k);
      assert range.Lines()[k] == range.Line(k);
      ReadStops(read, range.Lines(), k);
    }
  }

  lemma RangeIsRead(range: PortRange)
    requires Recognised(range)
    ensures ParsePorts(range.Lines()).Ok? <==> RangeFits(range)
    ensures RangeFits(range) ==> ParsePorts(range.Lines()) == Ok(RangePorts(range))
  {
    forall k: nat, i: nat, e: nat | k < range.size
      ensures ParseLine(range.Line(k), i, e).Ok? <==> LineFits(range, k)
      ensures LineFits(range, k) ==>
        ParseLine(range.Line(k), i, e) == Ok(RangePort(range, k, if RangeDirection(range) == Export then e else i))
    {
      ParseRangeLine(range, k, i, e);
    }
    assert RangeFits(range) ==> LineFits(range, 0);
    LinesAreRead(ParseLine, range);
  }
}
