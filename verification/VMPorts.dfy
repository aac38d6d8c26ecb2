/** Network ports of a VM: their printed form and the parser of config lines. */
module VMPorts {
  import opened Results
  import opened Text

  const PUBLIC := "@PUBLIC"
  const BASE_FORWARD := 9001
  const MAX_PORT := 65535
  const PROXY_PROTOCOL_DEFAULT := 8443

  datatype Protocol = TCP | UnknownProtocol

  datatype Direction = Export | Import

  /** `index` is the position among the ports of the same direction, `publicPort` is 0 for a
      private port, and `proxyPort` is 0 when the PROXY protocol is not used. */
  datatype VMPort = VMPort(port: nat, protocol: Protocol, direction: Direction, index: nat,
                           group: string, publicPort: nat, proxyPort: nat)
  {
    function Arrow(): string {
      if direction == Import then "<-" else "->"
    }

    function Left(): string {
      Itoa(port) + (if protocol == TCP then "/tcp" else "/???")
    }

    function Right(): string {
      group + (if publicPort != 0 then ":" + Itoa(publicPort) else "")
    }

    function String(): string {
      Left() + Arrow() + Right()
    }

    /** Public ports of all VMs share one ID per outside port. */
    function GlobalID(): string {
      if publicPort != 0 then "...->" + group + ":" + Itoa(publicPort) else String()
    }

    /** What two ports must not share inside one VM. */
    function Identity(): (nat, Direction, Protocol, string, nat) {
      (port, direction, protocol, group, publicPort)
    }

    function Exported(): VMPort {
      this.(direction := Export)
    }
  }

  datatype PortError =
    | NoDirection | InvalidString | InvalidPort | NotANumber | OutOfBounds | NotTCP
    | InvalidGroup | ImportOfPublic | InvalidPublicGroup | InvalidProxyPort | DuplicatePort
    | InvalidRange | RangeSizesDiffer | RangeTooBig | RangeTooSmall

  /** Recognises ^@[A-Za-z0-9_]*$ */
  predicate IsValidGroupName(group: string) {
    group != [] && group[0] == '@' && AllWordChars(group[1..])
  }

  /** What the parser can produce: a private port of a lower-case group, or a public export. */
  predicate WellFormed(p: VMPort) {
    && 1 <= p.port <= MAX_PORT
    && p.protocol == TCP
    && if p.group == PUBLIC then p.direction == Export && 1 <= p.publicPort <= MAX_PORT
       else IsValidGroupName(p.group) && ToLower(p.group) == p.group && p.publicPort == 0
  }

  // -- comments -------------------------------------------------------------

  predicate IsComment(rest: string) {
    rest == [] || (|rest| >= 2 && rest[0] == '(' && rest[|rest| - 1] == ')')
  }

  predicate CommentAt(line: string, i: nat)
    requires i < |line|
  {
    line[i] == ' ' && IsComment(line[i + 1..])
  }

  /** The last of the first `n` positions that holds a space followed by nothing or by a
      parenthesised comment; -1 if there is none. */
  function CommentSpace(line: string, n: nat): (i: int)
    requires n <= |line|
    ensures -1 <= i < n
    ensures i >= 0 ==> CommentAt(line, i)
    ensures forall j | i < j < n :: !CommentAt(line, j)
  {
    if n == 0 then -1
    else if CommentAt(line, n - 1) then n - 1
    else CommentSpace(line, n - 1)
  }

  /** portExtractComment: splits `line` as ^(.*) (\((.*)\))?$ does, where the first group is as
      long as possible and no dot matches a line feed. */
  function ExtractComment(line: string): (string, string) {
    var i := CommentSpace(line, |line|);
    if '\n' in line || i < 0 then (line, "")
    else
      var rest := line[i + 1..];
      (line[..i], if rest == [] then "" else rest[1..|rest| - 1])
  }

  lemma NoComment(line: string)
    requires ' ' !in line
    ensures ExtractComment(line) == (line, "")
  {
  }

  // -- one line -------------------------------------------------------------

  function ParseDirection(line: string): Option<Direction> {
    if Contains(line, "->") then Some(Export)
    else if Contains(line, "<-") then Some(Import)
    else None
  }

  function ParseNumber(s: string): Result<nat, PortError> {
    match Atoi(s)
    case None => Err(NotANumber)
    case Some(n) => if 1 <= n <= MAX_PORT then Ok(n) else Err(OutOfBounds)
  }

  /** The left-hand side: a port number and the only supported protocol, in any case. */
  function ParseLeft(left: string): Result<nat, PortError> {
    var parts := Split(TrimSpace(ToLower(left)), "/");
    if |parts| != 2 then Err(InvalidPort)
    else
      var number := ParseNumber(parts[0]);
      if number.Ok? && parts[1] != "tcp" then Err(NotTCP) else number
  }

  /** PROXY protocol port asked for by a comment: 0 for none; a given number is truncated to
      16 bits. */
  function ParseProxy(comment: string): Result<nat, PortError> {
    var parts := Split(comment, ":");
    if parts[0] != "PROXY" then Ok(0)
    else if |parts| != 2 then Ok(PROXY_PROTOCOL_DEFAULT)
    else
      match Atoi(parts[1])
      case None => Err(InvalidProxyPort)
      case Some(n) => Ok(n % 0x1_0000)
  }

  /** The right-hand side of a port: its group, public port and PROXY port. */
  function ParseRight(right: string, comment: string, direction: Direction, port: nat)
    : Result<(string, nat, nat), PortError>
  {
    var group := TrimSpace(right);
    if !HasPrefix(group, PUBLIC) then
      var lower := ToLower(group);
      if IsValidGroupName(lower) then Ok((lower, 0, 0)) else Err(InvalidGroup)
    else if direction != Export then Err(ImportOfPublic)
    else
      var parts := Split(group, ":");
      if parts[0] != PUBLIC || |parts| > 2 then Err(InvalidPublicGroup)
      else
        var publicPort := if |parts| == 1 then Ok(port) else ParseNumber(parts[1]);
        if publicPort.Err? then Err(publicPort.error)
        else
          var proxy := ParseProxy(comment);
          if proxy.Err? then Err(proxy.error) else Ok((PUBLIC, publicPort.value, proxy.value))
  }

  /** The port made of the two sides of an arrow. */
  function ParseSides(left: string, right: string, comment: string, direction: Direction, index: nat)
    : Result<VMPort, PortError>
  {
    var port := ParseLeft(left);
    if port.Err? then Err(port.error)
    else
      var r := ParseRight(right, comment, direction, port.value);
      if r.Err? then Err(r.error)
      else Ok(VMPort(port.value, TCP, direction, index, r.value.0, r.value.1, r.value.2))
  }

  /** One config line; `imports` and `exports` count the ports already read in each direction. */
  function ParseLine(orgLine: string, imports: nat, exports: nat): Result<VMPort, PortError> {
    var (line, comment) := ExtractComment(orgLine);
    match ParseDirection(line)
    case None => Err(NoDirection)
    case Some(direction) =>
      var parts := Split(line, if direction == Export then "->" else "<-");
      if |parts| != 2 then Err(InvalidString)
      else ParseSides(parts[0], parts[1], comment, direction, if direction == Export then exports else imports)
  }

  // -- a list of lines ------------------------------------------------------

  function CountDirection(ports: seq<VMPort>, d: Direction): nat {
    if ports == [] then 0
    else CountDirection(ports[..|ports| - 1], d) + (if ports[|ports| - 1].direction == d then 1 else 0)
  }

  predicate DuplicateOf(p: VMPort, ports: seq<VMPort>) {
    exists q | q in ports :: q.Identity() == p.Identity()
  }

  /** Adds the port read from a line to the ports read before it. */
  function AddPort(ports: seq<VMPort>, port: Result<VMPort, PortError>): Result<seq<VMPort>, PortError> {
    if port.Err? then Err(port.error)
    else if DuplicateOf(port.value, ports) then Err(DuplicatePort)
    else Ok(ports + [port.value])
  }

  /** Reads lines that hold one port each with a given reader of lines. */
  function ReadPorts(read: (string, nat, nat) -> Result<VMPort, PortError>, lines: seq<string>)
    : Result<seq<VMPort>, PortError>
  {
    if lines == [] then Ok([])
    else
      var before := ReadPorts(read, lines[..|lines| - 1]);
      if before.Err? then before
      else
        AddPort(before.value, read(lines[|lines| - 1], CountDirection(before.value, Import),
                                   CountDirection(before.value, Export)))
  }

  /** Lines that hold one port each. */
  function ParsePorts(lines: seq<string>): Result<seq<VMPort>, PortError> {
    ReadPorts(ParseLine, lines)
  }

  // -- printing then parsing ------------------------------------------------

  /** Characters of the sides of a printed port: no space, no arrow and no upper case but in
      the public group. */
  predicate Plain(s: string) {
    forall c | c in s :: IsWordChar(c) || c in {'@', ':', '/'}
  }

  lemma NotPlain(s: string)
    requires Plain(s)
    ensures ' ' !in s && '-' !in s && '<' !in s && '>' !in s
  {
  }

  lemma PlainSides(p: VMPort)
    requires WellFormed(p)
    ensures Plain(p.Left()) && Plain(p.Right())
  {
    assert p.group == PUBLIC || p.group == ['@'] + p.group[1..];
  }

  lemma ParseOfLeft(p: VMPort)
    requires WellFormed(p)
    ensures ParseLeft(p.Left()) == Ok(p.port)
  {
    var number := Itoa(p.port);
    LowerNothing(p.Left());
    assert number[0] in number;
    TrimNothing(p.Left());
    assert p.Left() == number + "/" + "tcp";
    SplitInTwo(number, "/", "tcp");
    AtoiItoa(p.port);
  }

  lemma ParseOfPublicRight(p: VMPort)
    requires WellFormed(p) && p.group == PUBLIC
    ensures ParseRight(p.Right(), "", p.direction, p.port) == Ok((p.group, p.publicPort, 0))
  {
    var number := Itoa(p.publicPort);
    assert number[|number| - 1] in number;
    TrimNothing(p.Right());
    assert p.Right() == PUBLIC + ":" + number;
    SplitInTwo(PUBLIC, ":", number);
    AtoiItoa(p.publicPort);
    SplitInOne("", ":");
  }

  lemma ParseOfRight(p: VMPort)
    requires WellFormed(p)
    ensures ParseRight(p.Right(), "", p.direction, p.port) == Ok((p.group, p.publicPort, 0))
  {
    if p.group == PUBLIC {
      ParseOfPublicRight(p);
    } else {
      assert p.Right() == p.group;
      assert |p.group| > 1 ==> p.group[|p.group| - 1] in p.group[1..];
      TrimNothing(p.group);
      assert |p.group| > 1 ==> p.group[1] == LowerChar(p.group[1]) != 'P' == PUBLIC[1];
    }
  }

  lemma ParseOfSides(p: VMPort, index: nat)
    requires WellFormed(p)
    ensures ParseSides(p.Left(), p.Right(), "", p.direction, index) == Ok(p.(index := index, proxyPort := 0))
  {
    ParseOfLeft(p);
    ParseOfRight(p);
  }

  lemma CutString(p: VMPort)
    requires WellFormed(p)
    ensures ExtractComment(p.String()) == (p.String(), "")
    ensures ParseDirection(p.String()) == Some(p.direction)
    ensures Split(p.String(), p.Arrow()) == [p.Left(), p.Right()]
  {
    PlainSides(p);
    NotPlain(p.Left());
    NotPlain(p.Right());
    NoComment(p.String());
    SplitInTwo(p.Left(), p.Arrow(), p.Right());
    if p.direction == Import {
      NotContained(p.String(), "->", '>');
    }
  }

  /** A printed port is parsed as itself: only its index and PROXY port are not printed. */
  lemma ParseOfString(p: VMPort, imports: nat, exports: nat)
    requires WellFormed(p)
    ensures ParseLine(p.String(), imports, exports)
         == Ok(p.(index := if p.direction == Export then exports else imports, proxyPort := 0))
  {
    CutString(p);
    ParseOfSides(p, if p.direction == Export then exports else imports);
  }

  /** Printed ports are equal only for ports of one identity, so maps keyed by the printed
      form are keyed by port, direction, group and public port. */
  lemma StringInjective(p: VMPort, q: VMPort)
    requires WellFormed(p) && WellFormed(q)
    ensures p.String() == q.String() <==> p.Identity() == q.Identity()
  {
    ParseOfString(p, 0, 0);
    ParseOfString(q, 0, 0);
  }

  /** Public exports share a global ID exactly when they share the outside port, and never
      share one with a private port. */
  lemma GlobalIdMeaning(p: VMPort, q: VMPort)
    requires WellFormed(p) && WellFormed(q)
    ensures p.GlobalID() == q.GlobalID() <==>
      p.publicPort == q.publicPort && (p.publicPort == 0 ==> p.Identity() == q.Identity())
  {
    if p.publicPort != 0 && q.publicPort != 0 {
      var a, b := Itoa(p.publicPort), Itoa(q.publicPort);
      assert p.GlobalID()[|"...->@PUBLIC:"|..] == a;
      assert q.GlobalID()[|"...->@PUBLIC:"|..] == b;
    } else if p.publicPort == 0 && q.publicPort == 0 {
      StringInjective(p, q);
    } else {
      assert forall r: VMPort | WellFormed(r) && r.publicPort == 0 ::
        r.GlobalID()[0] == Itoa(r.port)[0] && IsDigit(Itoa(r.port)[0]);
    }
  }
}
