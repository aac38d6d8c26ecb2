/** Config lines as they are written, and the ports they stand for. */
module RangeTexts {
  import opened Results
  import opened Text
  import opened VMPorts
  import opened PortArrays
  import opened RangeMeaning

  // -- a range as it is written ---------------------------------------------

  /** The outside ports of a range: not written, the first one, or both ends. */
  datatype Outside = Same | From(start: nat) | Span(start: nat, end: nat) {
    function Text(): string {
      match this
      case Same => ""
      case From(c) => ":" + Itoa(c)
      case Span(c, d) => ":" + (Itoa(c) + ("-" + Itoa(d)))
    }
  }

  predicate Arrow(s: string) {
    s == "->" || s == "<-"
  }

  predicate Spaces(s: string) {
    forall i | 0 <= i < |s| :: s[i] == ' '
  }

  /** a-b/tcp -> @word:c-d, with any number of spaces around the arrow. */
  function Base(a: nat, b: nat, gap1: string, arrow: string, gap2: string, word: string, o: Outside): string {
    Itoa(a) + ("-" + (Itoa(b) + ("/tcp" + (gap1 + (arrow + (gap2 + ("@" + (word + o.Text()))))))))
  }

  function WithComment(base: string, comment: string): string {
    base + if comment == "" then "" else " (" + comment + ")"
  }

  // -- comments -------------------------------------------------------------

  lemma NoSpaceBefore(base: string)
    requires '(' !in base && (base == "" || base[|base| - 1] != ' ')
    ensures ExtractComment(base) == (base, "")
  {
    forall i | 0 <= i < |base| ensures !CommentAt(base, i) {
      if base[i] == ' ' {
        assert base[i + 1..][0] == base[i + 1];
      }
    }
  }

  lemma CutComment(base: string, comment: string)
    requires '(' !in base && '\n' !in base && base != "" && base[|base| - 1] != ' ' && CleanComment(comment)
    ensures ExtractComment(WithComment(base, comment)) == (base, comment)
  {
    if comment == "" {
      NoSpaceBefore(base);
      assert base + "" == base;
    } else {
      ExtractSuffix(base, comment);
    }
  }

  /** Text of a line before its comment. */
  predicate LineText(s: string) {
    '(' !in s && '\n' !in s
  }

  lemma TextConcat(s: string, t: string)
    requires LineText(s) && LineText(t)
    ensures LineText(s + t)
  {
  }

  lemma DigitsAreText(n: nat)
    ensures LineText(Itoa(n)) && Itoa(n) != "" && IsDigit(Itoa(n)[0]) && IsDigit(Itoa(n)[|Itoa(n)| - 1])
  {
  }

  /** A text that can end a line: what it ends in is no space. */
  predicate Ending(s: string) {
    LineText(s) && s != "" && IsWordChar(s[|s| - 1])
  }

  lemma EndingConcat(s: string, t: string)
    requires LineText(s) && Ending(t)
    ensures Ending(s + t)
  {
    TextConcat(s, t);
    assert (s + t)[|s + t| - 1] == t[|t| - 1];
  }

  lemma DigitsEnd(n: nat)
    ensures Ending(Itoa(n))
  {
    DigitsAreText(n);
  }

  lemma WordEnds(word: string, o: Outside)
    requires word != "" && AllWordChars(word)
    ensures Ending(word + o.Text())
  {
    match o
    case Same =>
      assert word + "" == word;
    case From(c) =>
      DigitsEnd(c);
      EndingConcat(":", Itoa(c));
      EndingConcat(word, o.Text());
    case Span(c, d) =>
      DigitsEnd(c);
      DigitsEnd(d);
      EndingConcat("-", Itoa(d));
      EndingConcat(Itoa(c), "-" + Itoa(d));
      EndingConcat(":", Itoa(c) + ("-" + Itoa(d)));
      EndingConcat(word, o.Text());
  }

  lemma ArrowEnds(gap1: string, arrow: string, gap2: string, word: string, o: Outside)
    requires Spaces(gap1) && Arrow(arrow) && Spaces(gap2) && word != "" && AllWordChars(word)
    ensures Ending("/tcp" + (gap1 + (arrow + (gap2 + ("@" + (word + o.Text()))))))
  {
    var s1 := word + o.Text();
    WordEnds(word, o);
    EndingConcat("@", s1);
    EndingConcat(gap2, "@" + s1);
    EndingConcat(arrow, gap2 + ("@" + s1));
    EndingConcat(gap1, arrow + (gap2 + ("@" + s1)));
    EndingConcat("/tcp", gap1 + (arrow + (gap2 + ("@" + s1))));
  }

  lemma BaseIsText(a: nat, b: nat, gap1: string, arrow: string, gap2: string, word: string, o: Outside)
    requires Spaces(gap1) && Arrow(arrow) && Spaces(gap2) && word != "" && AllWordChars(word)
    ensures var s := Base(a, b, gap1, arrow, gap2, word, o); Ending(s) && IsDigit(s[0])
  {
    var s2 := "/tcp" + (gap1 + (arrow + (gap2 + ("@" + (word + o.Text())))));
    ArrowEnds(gap1, arrow, gap2, word, o);
    DigitsAreText(a);
    DigitsAreText(b);
    EndingConcat(Itoa(b), s2);
    EndingConcat("-", Itoa(b) + s2);
    EndingConcat(Itoa(a), "-" + (Itoa(b) + s2));
    assert Base(a, b, gap1, arrow, gap2, word, o)[0] == Itoa(a)[0];
  }

  // -- recognising it -------------------------------------------------------

  lemma {:induction false} SkipGap(gap: string, rest: string)
    requires Spaces(gap) && (rest == "" || rest[0] != ' ')
    ensures SkipSpaces(gap + rest) == rest
  {
    if gap == "" {
      assert gap + rest == rest;
    } else {
      assert (gap + rest)[1..] == gap[1..] + rest;
      SkipGap(gap[1..], rest);
    }
  }

  lemma {:induction false} WordOf(word: string, rest: string)
    requires AllWordChars(word) && (rest == "" || !IsWordChar(rest[0]))
    ensures LeadingWord(word + rest) == word
  {
    if word == "" {
      assert word + rest == rest;
    } else {
      assert (word + rest)[1..] == word[1..] + rest;
      WordOf(word[1..], rest);
    }
  }

  lemma DigitsThen(n: nat, rest: string)
    requires rest == "" || !IsDigit(rest[0])
    ensures LeadingDigits(Itoa(n) + rest) == Itoa(n) && (Itoa(n) + rest)[|Itoa(n)|..] == rest && Itoa(n) != ""
  {
    LeadingDigitsOf(Itoa(n), rest);
  }

  lemma AfterPrefix(prefix: string, rest: string)
    ensures HasPrefix(prefix + rest, prefix) && (prefix + rest)[|prefix|..] == rest
  {
  }

  /** The texts of the outside ports. */
  function OutsideTexts(o: Outside): (string, string) {
    match o
    case Same => ("", "")
    case From(c) => (Itoa(c), "")
    case Span(c, d) => (Itoa(c), Itoa(d))
  }

  lemma ScanOutside(o: Outside)
    ensures ScanTarget(o.Text()) == Some(OutsideTexts(o))
  {
    match o
    case Same =>
    case From(c) => ScanStart(c);
    case Span(c, d) => ScanStartEnd(c, d);
  }

  lemma ScanStart(c: nat)
    ensures ScanTarget(":" + Itoa(c)) == Some((Itoa(c), ""))
  {
    var s := ":" + Itoa(c);
    DigitsThen(c, "");
    assert Itoa(c) + "" == Itoa(c);
    assert s[1..] == Itoa(c) && s[1 + |Itoa(c)|..] == "";
  }

  lemma ScanStartEnd(c: nat, d: nat)
    ensures ScanTarget(":" + (Itoa(c) + ("-" + Itoa(d)))) == Some((Itoa(c), Itoa(d)))
  {
    var rest := "-" + Itoa(d);
    var s := ":" + (Itoa(c) + rest);
    DigitsThen(c, rest);
    DigitsThen(d, "");
    assert Itoa(d) + "" == Itoa(d);
    assert s[1..] == Itoa(c) + rest && s[1 + |Itoa(c)|..] == rest && rest[1..] == Itoa(d);
  }

  /** From the arrow on. */
  function AfterGap(arrow: string, gap2: string, word: string, o: Outside): string {
    arrow + (gap2 + ("@" + (word + o.Text())))
  }

  lemma ScanArrow(srcStart: string, srcEnd: string, arrow: string, gap2: string, word: string, o: Outside)
    requires Arrow(arrow) && Spaces(gap2) && word != "" && AllWordChars(word)
    ensures ScanFromArrow(srcStart, srcEnd, AfterGap(arrow, gap2, word, o))
      == Some(RangeText(srcStart, srcEnd, arrow, "@" + word, OutsideTexts(o).0, OutsideTexts(o).1))
  {
    var s3, s4 := AfterGap(arrow, gap2, word, o), "@" + (word + o.Text());
    ArrowFirst(arrow, gap2 + s4);
    SkipGap(gap2, s4);
    WordFirst(word, o);
    ScanOutside(o);
    ScanAt(srcStart, srcEnd, s3, arrow, s4, word, OutsideTexts(o));
  }

  lemma ScanAt(srcStart: string, srcEnd: string, s: string, arrow: string, rest: string, word: string,
               target: (string, string))
    requires Arrow(arrow) && (HasPrefix(s, "<-") <==> arrow == "<-") && (HasPrefix(s, "->") <==> arrow == "->")
    requires |s| >= 2 && SkipSpaces(s[2..]) == rest && rest != "" && rest[0] == '@'
    requires LeadingWord(rest[1..]) == word != "" && 1 + |word| <= |rest|
    requires ScanTarget(rest[1 + |word|..]) == Some(target)
    ensures ScanFromArrow(srcStart, srcEnd, s)
      == Some(RangeText(srcStart, srcEnd, arrow, "@" + word, target.0, target.1))
  {
    assert ['@'] + word == "@" + word;
  }

  lemma ArrowFirst(arrow: string, rest: string)
    requires Arrow(arrow)
    ensures var s := arrow + rest;
      && s[2..] == rest && (HasPrefix(s, "<-") <==> arrow == "<-") && (HasPrefix(s, "->") <==> arrow == "->")
  {
    assert (arrow + rest)[..2] == arrow;
  }

  lemma WordFirst(word: string, o: Outside)
    requires word != "" && AllWordChars(word)
    ensures var s := "@" + (word + o.Text());
      s[0] == '@' && LeadingWord(s[1..]) == word && s[1 + |word|..] == o.Text()
  {
    var s := "@" + (word + o.Text());
    assert s[1..] == word + o.Text();
    OutsideStarts(o);
    WordOf(word, o.Text());
  }

  lemma OutsideStarts(o: Outside)
    ensures o.Text() == "" || o.Text()[0] == ':'
  {
  }

  lemma ScanFront(a: nat, b: nat, gap1: string, s3: string)
    requires Spaces(gap1) && s3 != "" && s3[0] != ' '
    ensures ScanRange(Itoa(a) + ("-" + (Itoa(b) + ("/tcp" + (gap1 + s3))))) == ScanFromArrow(Itoa(a), Itoa(b), s3)
  {
    var s2 := "/tcp" + (gap1 + s3);
    var s1 := "-" + (Itoa(b) + s2);
    DigitsThen(a, s1);
    AfterPrefix("-", Itoa(b) + s2);
    DigitsThen(b, s2);
    assert s1[1 + |Itoa(b)|..] == s2;
    AfterPrefix("/tcp", gap1 + s3);
    SkipGap(gap1, s3);
  }

  lemma ScanBase(a: nat, b: nat, gap1: string, arrow: string, gap2: string, word: string, o: Outside)
    requires Spaces(gap1) && Arrow(arrow) && Spaces(gap2) && word != "" && AllWordChars(word)
    ensures ScanRange(Base(a, b, gap1, arrow, gap2, word, o))
      == Some(RangeText(Itoa(a), Itoa(b), arrow, "@" + word, OutsideTexts(o).0, OutsideTexts(o).1))
  {
    ScanFront(a, b, gap1, AfterGap(arrow, gap2, word, o));
    ScanArrow(Itoa(a), Itoa(b), arrow, gap2, word, o);
  }

  // -- its numbers ----------------------------------------------------------

  /** A text that stands for a number, if that fits an integer. */
  predicate Stands(s: string, n: nat) {
    s != "" && Atoi(s) == if n <= MAX_INT then Some(n) else None
  }

  /** The numbers of a range, as its texts give them. */
  lemma NumbersChecked(t: RangeText, a: nat, b: nat, o: Outside, comment: string)
    requires Stands(t.srcStart, a) && Stands(t.srcEnd, b)
    requires if o.Same? then t.dstStart == "" else Stands(t.dstStart, o.start)
    requires if o.Span? then Stands(t.dstEnd, o.end) else t.dstEnd == ""
    ensures var c := if o.Same? then a else o.start;
      var span := if o.Span? then o.end - o.start else b - a;
      CheckRange(t, comment) ==
        if a > MAX_INT || b > MAX_INT || c > MAX_INT || (o.Span? && o.end > MAX_INT) then Err(InvalidRange)
        else if b - a != span then Err(RangeSizesDiffer)
        else if b - a + 1 > 20 then Err(RangeTooBig)
        else if b - a + 1 < 2 then Err(RangeTooSmall)
        else Ok(PortRange(a, b - a + 1, t.arrow, t.group, c, comment))
  {
  }

  lemma TextsStand(a: nat, b: nat, arrow: string, group: string, o: Outside)
    ensures var t := RangeText(Itoa(a), Itoa(b), arrow, group, OutsideTexts(o).0, OutsideTexts(o).1);
      && Stands(t.srcStart, a) && Stands(t.srcEnd, b)
      && (if o.Same? then t.dstStart == "" else Stands(t.dstStart, o.start))
      && (if o.Span? then Stands(t.dstEnd, o.end) else t.dstEnd == "")
  {
    DigitsRead(a);
    DigitsRead(b);
    match o
    case Same =>
    case From(c) => DigitsRead(c);
    case Span(c, d) =>
      DigitsRead(c);
      DigitsRead(d);
  }

  lemma DigitsRead(n: nat)
    ensures Stands(Itoa(n), n)
  {
    AtoiNat(n);
  }

  lemma ReadFromParts(line: string, base: string, comment: string, t: RangeText, a: nat, b: nat, o: Outside)
    requires ExtractComment(line) == (base, comment) && TrimSpace(base) == base && ScanRange(base) == Some(t)
    requires Stands(t.srcStart, a) && Stands(t.srcEnd, b)
    requires if o.Same? then t.dstStart == "" else Stands(t.dstStart, o.start)
    requires if o.Span? then Stands(t.dstEnd, o.end) else t.dstEnd == ""
    ensures var c := if o.Same? then a else o.start;
      var span := if o.Span? then o.end - o.start else b - a;
      ReadRange(line) ==
        if a > MAX_INT || b > MAX_INT || c > MAX_INT || (o.Span? && o.end > MAX_INT) then Err(InvalidRange)
        else if b - a != span then Err(RangeSizesDiffer)
        else if b - a + 1 > 20 then Err(RangeTooBig)
        else if b - a + 1 < 2 then Err(RangeTooSmall)
        else Ok(Some(PortRange(a, b - a + 1, t.arrow, t.group, c, comment)))
  {
    NumbersChecked(t, a, b, o, comment);
    ReadChecked(line, base, comment, t);
  }

  lemma ReadChecked(line: string, base: string, comment: string, t: RangeText)
    requires ExtractComment(line) == (base, comment) && TrimSpace(base) == base && ScanRange(base) == Some(t)
    ensures ReadRange(line) == match CheckRange(t, comment) case Ok(range) => Ok(Some(range)) case Err(e) => Err(e)
  {
  }

  lemma BaseIsCut(base: string, comment: string)
    requires Ending(base) && IsDigit(base[0]) && CleanComment(comment)
    ensures ExtractComment(WithComment(base, comment)) == (base, comment) && TrimSpace(base) == base
  {
    CutComment(base, comment);
    TrimNothing(base);
  }

  /** A range as it is written is read as its numbers, arrow, group and comment, or refused: because a
      number is too large for an integer, because of its two sizes, or because of its size. */
  lemma RangeIsReadAs(a: nat, b: nat, gap1: string, arrow: string, gap2: string, word: string, o: Outside,
                      comment: string)
    requires Spaces(gap1) && Arrow(arrow) && Spaces(gap2) && word != "" && AllWordChars(word) && CleanComment(comment)
    ensures var line := WithComment(Base(a, b, gap1, arrow, gap2, word, o), comment);
      var c := if o.Same? then a else o.start;
      var span := if o.Span? then o.end - o.start else b - a;
      ReadRange(line) ==
        if a > MAX_INT || b > MAX_INT || c > MAX_INT || (o.Span? && o.end > MAX_INT) then Err(InvalidRange)
        else if b - a != span then Err(RangeSizesDiffer)
        else if b - a + 1 > 20 then Err(RangeTooBig)
        else if b - a + 1 < 2 then Err(RangeTooSmall)
        else Ok(Some(PortRange(a, b - a + 1, arrow, "@" + word, c, comment)))
  {
    var base := Base(a, b, gap1, arrow, gap2, word, o);
    BaseIsText(a, b, gap1, arrow, gap2, word, o);
    BaseIsCut(base, comment);
    ScanBase(a, b, gap1, arrow, gap2, word, o);
    var t := RangeText(Itoa(a), Itoa(b), arrow, "@" + word, OutsideTexts(o).0, OutsideTexts(o).1);
    TextsStand(a, b, arrow, "@" + word, o);
    ReadFromParts(WithComment(base, comment), base, comment, t, a, b, o);
  }

  // -- the PROXY comment ----------------------------------------------------

  /** A comment asks for the PROXY protocol exactly if its first field is PROXY: at port 8443, or at the
      port that its second field gives, of which 16 bits are kept. */
  lemma ProxyMeaning(x: string, y: string, rest: string)
    requires ':' !in x && ':' !in y
    ensures ParseProxy(x) == Ok(if x == "PROXY" then 8443 else 0)
    ensures ParseProxy(x + ":" + y) ==
      if x != "PROXY" then Ok(0)
      else match Atoi(y)
        case None => Err(InvalidProxyPort)
        case Some(n) => Ok(n % 65536)
    ensures ParseProxy(x + ":" + (y + ":" + rest)) == Ok(if x == "PROXY" then 8443 else 0)
  {
    SplitInOne(x, ":");
    SplitInTwo(x, ":", y);
    SplitFirstOf(x, y + ":" + rest);
    SplitFirstOf(y, rest);
  }

  lemma SplitFirstOf(x: string, rest: string)
    requires ':' !in x
    ensures Split(x + ":" + rest, ":") == [x] + Split(rest, ":")
  {
    var s := x + ":" + rest;
    assert s[|x|..|x| + 1] == ":";
    assert At(s, ":", |x|);
    forall j | 0 <= j < |x| ensures !At(s, ":", j) {
      assert s[j..j + 1][0] == x[j];
    }
    assert s[..|x|] == x && s[|x| + 1..] == rest;
  }

  /** The PROXY port that a comment asks for, as far as it is written in a usual way. */
  predicate AsksFor(comment: string, proxy: nat) {
    || (comment == "" && proxy == 0)
    || (comment == "PROXY" && proxy == 8443)
    || (comment == "PROXY:" + Itoa(proxy) && proxy <= 65535)
  }

  lemma ProxyAsked(comment: string, proxy: nat)
    requires AsksFor(comment, proxy)
    ensures ParseProxy(comment) == Ok(proxy)
  {
    if comment == "" || comment == "PROXY" {
      ProxyPlain();
    } else {
      ProxyNumber(proxy);
    }
  }

  lemma ProxyPlain()
    ensures ParseProxy("") == Ok(0) && ParseProxy("PROXY") == Ok(8443)
  {
    SplitInOne("", ":");
    SplitInOne("PROXY", ":");
  }

  lemma ProxyNumber(n: nat)
    ensures n <= MAX_INT ==> ParseProxy("PROXY:" + Itoa(n)) == Ok(n % 65536)
  {
    AtoiNat(n);
    ProxyMeaning("PROXY", Itoa(n), "");
    assert "PROXY" + ":" + Itoa(n) == "PROXY:" + Itoa(n);
  }

  // -- the ports of a range -------------------------------------------------

  /** A range that is accepted. */
  lemma AcceptedRange(a: nat, b: nat, gap1: string, arrow: string, gap2: string, word: string, o: Outside,
                      comment: string)
    requires Spaces(gap1) && Arrow(arrow) && Spaces(gap2) && word != "" && AllWordChars(word) && CleanComment(comment)
    requires a < b < a + 20 && b <= 65535 && (o.Span? ==> o.end - o.start == b - a)
    requires !o.Same? ==> o.start + (b - a) <= MAX_INT
    ensures ReadRange(WithComment(Base(a, b, gap1, arrow, gap2, word, o), comment))
      == Ok(Some(PortRange(a, b - a + 1, arrow, "@" + word, if o.Same? then a else o.start, comment)))
  {
    RangeIsReadAs(a, b, gap1, arrow, gap2, word, o, comment);
  }

  /** A range of public ports that is written within all bounds stands for one export per port, each on
      the outside port that is as far from the first. */
  lemma PublicRange(a: nat, b: nat, gap1: string, gap2: string, o: Outside, comment: string, proxy: nat)
    requires Spaces(gap1) && Spaces(gap2) && CleanComment(comment) && AsksFor(comment, proxy)
    requires a < b < a + 20 && (o.Span? ==> o.end - o.start == b - a)
    requires 1 <= a && b <= 65535 && (!o.Same? ==> 1 <= o.start && o.start + (b - a) <= 65535)
    ensures var c := if o.Same? then a else o.start;
      var ports := PortArray([WithComment(Base(a, b, gap1, "->", gap2, "PUBLIC", o), comment)]);
      && ports.Ok? && |ports.value| == b - a + 1
      && forall i | 0 <= i < |ports.value| :: ports.value[i] == VMPort(a + i, TCP, Export, i, "@PUBLIC", c + i, proxy)
  {
    var line := WithComment(Base(a, b, gap1, "->", gap2, "PUBLIC", o), comment);
    var c := if o.Same? then a else o.start;
    PublicIsWord();
    AcceptedRange(a, b, gap1, "->", gap2, "PUBLIC", o, comment);
    PublicPorts(line, PortRange(a, b - a + 1, "->", "@PUBLIC", c, comment), proxy);
  }

  lemma PublicIsWord()
    ensures AllWordChars("PUBLIC") && "@" + "PUBLIC" == "@PUBLIC" && Arrow("->")
  {
  }

  lemma PublicPorts(line: string, range: PortRange, proxy: nat)
    requires ReadRange(line) == Ok(Some(range)) && AsksFor(range.comment, proxy)
    requires range.group == "@PUBLIC" && range.arrow == "->"
    requires 1 <= range.start && range.start + range.size <= 65536 && 1 <= range.dst && range.dst + range.size <= 65536
    ensures var ports := PortArray([line]);
      && ports.Ok? && |ports.value| == range.size
      && forall i | 0 <= i < |ports.value| ::
           ports.value[i] == VMPort(range.start + i, TCP, Export, i, "@PUBLIC", range.dst + i, proxy)
  {
    ProxyAsked(range.comment, proxy);
    PublicFits(range, proxy);
    MeaningOfRange(line);
  }

  lemma PublicFits(range: PortRange, proxy: nat)
    requires range.group == "@PUBLIC" && range.arrow == "->" && ParseProxy(range.comment) == Ok(proxy)
    requires 1 <= range.start && range.start + range.size <= 65536 && 1 <= range.dst && range.dst + range.size <= 65536
    ensures RangeFits(range) && forall i | 0 <= i < range.size ::
      RangePorts(range)[i] == VMPort(range.start + i, TCP, Export, i, "@PUBLIC", range.dst + i, proxy)
  {
  }

  /** A range of private ports stands for one port each, of the group in lower case, if no outside ports are
      written or the same ones; it is refused if they are others. */
  lemma PrivateRange(a: nat, b: nat, gap1: string, arrow: string, gap2: string, word: string, o: Outside,
                     comment: string)
    requires Spaces(gap1) && Arrow(arrow) && Spaces(gap2) && word != "" && AllWordChars(word) && CleanComment(comment)
    requires !HasPrefix(word, "PUBLIC")
    requires a < b < a + 20 && (o.Span? ==> o.end - o.start == b - a)
    requires 1 <= a && b <= 65535 && (!o.Same? ==> o.start + (b - a) <= MAX_INT)
    ensures var ports := PortArray([WithComment(Base(a, b, gap1, arrow, gap2, word, o), comment)]);
      if o.Same? || o.start == a then
        var d := if arrow == "->" then Export else Import;
        && ports.Ok? && |ports.value| == b - a + 1
        && forall i | 0 <= i < |ports.value| :: ports.value[i] == VMPort(a + i, TCP, d, i, ToLower("@" + word), 0, 0)
      else ports.Err?
  {
    var line := WithComment(Base(a, b, gap1, arrow, gap2, word, o), comment);
    var c := if o.Same? then a else o.start;
    var range := PortRange(a, b - a + 1, arrow, "@" + word, c, comment);
    AcceptedRange(a, b, gap1, arrow, gap2, word, o, comment);
    NotPublic(word);
    PrivatePorts(line, range);
  }

  lemma PrivatePorts(line: string, range: PortRange)
    requires ReadRange(line) == Ok(Some(range)) && !HasPrefix(range.group, "@PUBLIC") && range.size > 0
    requires 1 <= range.start && range.start + range.size <= 65536
    ensures var ports := PortArray([line]);
      if range.start == range.dst then
        var d := if range.arrow == "->" then Export else Import;
        && ports.Ok? && |ports.value| == range.size
        && forall i | 0 <= i < |ports.value| ::
             ports.value[i] == VMPort(range.start + i, TCP, d, i, ToLower(range.group), 0, 0)
      else ports.Err?
  {
    PrivateFits(range);
    MeaningOfRange(line);
  }

  lemma PrivateFits(range: PortRange)
    requires !HasPrefix(range.group, "@PUBLIC") && range.size > 0
    requires 1 <= range.start && range.start + range.size <= 65536
    ensures RangeFits(range) <==> range.start == range.dst
    ensures RangeFits(range) ==>
      var d := if range.arrow == "->" then Export else Import;
      forall i | 0 <= i < range.size ::
        RangePorts(range)[i] == VMPort(range.start + i, TCP, d, i, ToLower(range.group), 0, 0)
  {
    assert range.start != range.dst ==> !LineFits(range, 0);
  }

  lemma NotPublic(word: string)
    ensures HasPrefix("@" + word, PUBLIC) <==> HasPrefix(word, "PUBLIC")
  {
    assert ("@" + word)[1..] == word && PUBLIC == "@" + "PUBLIC";
    assert HasPrefix("@" + word, PUBLIC) ==> |word| >= 6 && word[..6] == ("@" + word)[1..7];
  }

  // -- the port of a single line --------------------------------------------

  /** n/tcp -> @word:c, with or without an outside port other than n. */
  function Single(n: nat, arrow: string, word: string, c: nat): string {
    Itoa(n) + "/tcp" + (" " + arrow + " " + ("@" + word + if n == c then "" else ":" + Itoa(c)))
  }

  /** A single line stands for one port, whose number and outside port are in bounds. */
  lemma LineMeaning(n: nat, arrow: string, word: string, c: nat, comment: string, imports: nat, exports: nat)
    requires Arrow(arrow) && word != "" && AllWordChars(word) && CleanComment(comment)
    requires word == "PUBLIC" || !HasPrefix(word, "PUBLIC")
    ensures var port := ParseLine(WithComment(Single(n, arrow, word, c), comment), imports, exports);
      var index := if arrow == "->" then exports else imports;
      if !(1 <= n <= 65535) then port.Err?
      else if word == "PUBLIC" then
        && (port.Ok? <==> arrow == "->" && 1 <= c <= 65535 && ParseProxy(comment).Ok?)
        && (port.Ok? ==> port.value == VMPort(n, TCP, Export, index, "@PUBLIC", c, ParseProxy(comment).value))
      else
        && (port.Ok? <==> n == c)
        && (port.Ok? ==>
              port.value == VMPort(n, TCP, if arrow == "->" then Export else Import, index, ToLower("@" + word), 0, 0))
  {
    var range := PortRange(n, 2, arrow, "@" + word, c, comment);
    assert "@" + "PUBLIC" == "@PUBLIC" && ("@" + word)[1..] == word;
    if word != "PUBLIC" {
      NotPublic(word);
    }
    SingleIsLine(n, arrow, word, c, comment);
    ParseRangeLine(range, 0, imports, exports);
  }

  lemma SingleIsLine(n: nat, arrow: string, word: string, c: nat, comment: string)
    ensures WithComment(Single(n, arrow, word, c), comment) == PortRange(n, 2, arrow, "@" + word, c, comment).Line(0)
  {
    var target := "@" + word + if n == c then "" else ":" + Itoa(c);
    var suffix := if comment == "" then "" else " (" + comment + ")";
    assert PortRange(n, 2, arrow, "@" + word, c, comment).Target(0) == target;
    assert Single(n, arrow, word, c) + suffix == Itoa(n) + "/tcp" + (" " + arrow + " " + target + suffix);
  }
}
