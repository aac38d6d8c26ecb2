/** IPv4 addresses as text and as 32-bit numbers, and the choice of an address for a new VM. */
module Networks {
  import opened Results
  import opened Text

  const MAX_IP := 0xFFFF_FFFF

  /** What remains of a number without its lowest bytes. */
  function High(n: nat, bytes: nat): nat {
    if bytes == 0 then n else High(n, bytes - 1) / 0x100
  }

  function IPIntToString(ip: nat): string
    requires ip <= MAX_IP
  {
    Dotted([Itoa(High(ip, 3)), Itoa(High(ip, 2) % 0x100), Itoa(High(ip, 1) % 0x100), Itoa(ip % 0x100)])
  }

  /** One field of a dotted address: no leading zeros, at most 255. */
  function ParseField(s: string): Option<nat> {
    if s == [] || !AllDigits(s) || (|s| > 1 && s[0] == '0') || DigitsValue(s) > 0xFF then None else Some(DigitsValue(s))
  }

  function Combine(f: seq<Option<nat>>): nat
    requires |f| == 4
  {
    if f[0].Some? && f[1].Some? && f[2].Some? && f[3].Some?
    then f[0].value * 0x100_0000 + f[1].value * 0x1_0000 + f[2].value * 0x100 + f[3].value
    else 0
  }

  /** Text that is no dotted address gives 0. */
  function IPStringToInt(ip: string): nat {
    var parts := Split(ip, ".");
    if |parts| != 4 then 0
    else Combine([ParseField(parts[0]), ParseField(parts[1]), ParseField(parts[2]), ParseField(parts[3])])
  }

  lemma SplitFirst(a: string, rest: string)
    requires '.' !in a
    ensures Split(a + "." + rest, ".") == [a] + Split(rest, ".")
  {
    var s := a + "." + rest;
    assert s[|a|..|a| + 1] == ".";
    assert At(s, ".", |a|);
    forall j | 0 <= j < |a| ensures !At(s, ".", j) {
      assert s[j..j + 1][0] == a[j];
    }
    assert IndexFrom(s, ".", 0) == |a|;
    assert s[..|a|] == a && s[|a| + 1..] == rest;
  }

  lemma FieldOf(n: nat)
    requires n <= 0xFF
    ensures ParseField(Itoa(n)) == Some(n) && '.' !in Itoa(n)
  {
  }

  /** Fields separated by dots. */
  function Dotted(fields: seq<string>): string
    requires fields != []
  {
    if |fields| == 1 then fields[0] else fields[0] + "." + Dotted(fields[1..])
  }

  lemma {:induction false} SplitDotted(fields: seq<string>)
    requires fields != [] && forall f | f in fields :: '.' !in f
    ensures Split(Dotted(fields), ".") == fields
    decreases |fields|
  {
    assert fields[0] in fields;
    if |fields| == 1 {
      SplitInOne(fields[0], ".");
    } else {
      SplitDotted(fields[1..]);
      SplitFirst(fields[0], Dotted(fields[1..]));
      assert [fields[0]] + fields[1..] == fields;
    }
  }

  /** Printing an address then reading it gives the same number, so no two addresses print alike. */
  lemma RoundTrip(ip: nat)
    requires ip <= MAX_IP
    ensures IPStringToInt(IPIntToString(ip)) == ip
  {
    assert High(ip, 0) == ip && High(ip, 1) == High(ip, 0) / 0x100;
    FourBytes(ip, High(ip, 1), High(ip, 2), High(ip, 3));
    ReadDotted(High(ip, 3), High(ip, 2) % 0x100, High(ip, 1) % 0x100, ip % 0x100);
  }

  lemma FourBytes(n: nat, n1: nat, n2: nat, n3: nat)
    requires n <= MAX_IP && n1 == n / 0x100 && n2 == n1 / 0x100 && n3 == n2 / 0x100
    ensures n3 <= 0xFF && n == n3 * 0x100_0000 + (n2 % 0x100) * 0x1_0000 + (n1 % 0x100) * 0x100 + n % 0x100
  {
  }

  lemma ReadDotted(a: nat, b: nat, c: nat, d: nat)
    requires a <= 0xFF && b <= 0xFF && c <= 0xFF && d <= 0xFF
    ensures IPStringToInt(Dotted([Itoa(a), Itoa(b), Itoa(c), Itoa(d)])) == a * 0x100_0000 + b * 0x1_0000 + c * 0x100 + d
  {
    FieldOf(a);
    FieldOf(b);
    FieldOf(c);
    FieldOf(d);
    SplitDotted([Itoa(a), Itoa(b), Itoa(c), Itoa(d)]);
  }

  /** A field is the decimal form of a byte. */
  lemma FieldMeaning(s: string)
    ensures ParseField(s).Some? <==> exists n: nat | n <= 255 :: s == Itoa(n)
    ensures ParseField(s).Some? ==> ParseField(s).value <= 255 && s == Itoa(ParseField(s).value)
  {
    if ParseField(s).Some? {
      if s[0] == '0' {
        assert s == "0" && Itoa(0) == "0";
      } else {
        CanonicalDigits(s);
      }
      assert s == Itoa(ParseField(s).value);
    } else {
      forall n: nat | n <= 255 ensures s != Itoa(n) {
        FieldOf(n);
      }
    }
  }

  lemma {:induction false} SplitJoins(s: string)
    ensures Dotted(Split(s, ".")) == s
    decreases |s|
  {
    var i := IndexFrom(s, ".", 0);
    if i >= 0 {
      SplitJoins(s[i + 1..]);
      var parts := Split(s, ".");
      assert parts[1..] == Split(s[i + 1..], ".");
      assert s == s[..i] + "." + s[i + 1..] by {
        assert s[i..i + 1] == ".";
      }
    }
  }

  /** Four bytes separated by dots, and nothing else, have a number other than 0. */
  lemma AddressOrZero(ip: string)
    ensures IPStringToInt(ip) == 0 || exists a, b, c, d :: IsAddress(ip, a, b, c, d)
  {
    var parts := Split(ip, ".");
    SplitJoins(ip);
    if IPStringToInt(ip) != 0 {
      var f0, f1, f2, f3 := ParseField(parts[0]), ParseField(parts[1]), ParseField(parts[2]), ParseField(parts[3]);
      FieldMeaning(parts[0]);
      FieldMeaning(parts[1]);
      FieldMeaning(parts[2]);
      FieldMeaning(parts[3]);
      assert parts == [Itoa(f0.value), Itoa(f1.value), Itoa(f2.value), Itoa(f3.value)];
      assert IsAddress(ip, f0.value, f1.value, f2.value, f3.value);
    }
  }

  predicate IsAddress(ip: string, a: nat, b: nat, c: nat, d: nat) {
    a <= 255 && b <= 255 && c <= 255 && d <= 255 && ip == Dotted([Itoa(a), Itoa(b), Itoa(c), Itoa(d)])
  }

  lemma InRange(ip: string)
    ensures IPStringToInt(ip) <= MAX_IP
  {
  }

  /** The address that a number of the random source stands for. */
  function Drawn(ipStart: nat, ipEnd: nat, draw: nat): string
    requires ipStart < ipEnd <= MAX_IP
  {
    IPIntToString(ipStart + draw % (ipEnd - ipStart + 1))
  }

  /** RandomUniqueIPv4, with the numbers that the random source gives, as long as it is asked;
      None when the range is invalid, or when the search has not ended yet. */
  method RandomUniqueIPv4(rangeStart: string, rangeEnd: string, vmIPs: seq<string>, hostIPs: seq<string>,
                          draws: seq<nat>)
    returns (r: Option<string>)
    ensures var first, last := IPStringToInt(rangeStart), IPStringToInt(rangeEnd);
      && (r.Some? ==> 0 < first < last <= MAX_IP && IsFirstFree(r.value, first, last, vmIPs, hostIPs, draws))
      && (r.None? && 0 < first < last <= MAX_IP ==>
            forall i | 0 <= i < |draws| :: !IsFree(Drawn(first, last, draws[i]), vmIPs, hostIPs))
  {
    var ipStart, ipEnd := IPStringToInt(rangeStart), IPStringToInt(rangeEnd);
    InRange(rangeStart);
    InRange(rangeEnd);
    r := PickIPv4(ipStart, ipEnd, vmIPs, hostIPs, draws);
  }

  /** No VM and no host of the network has that address. */
  predicate IsFree(ip: string, vmIPs: seq<string>, hostIPs: seq<string>) {
    ip !in vmIPs && ip !in hostIPs
  }

  /** The address of the first number that stands for a free one. */
  ghost predicate IsFirstFree(ip: string, first: nat, last: nat, vmIPs: seq<string>, hostIPs: seq<string>,
                              draws: seq<nat>)
    requires first < last <= MAX_IP
  {
    && IsFree(ip, vmIPs, hostIPs)
    && exists k | 0 <= k < |draws| ::
         && ip == Drawn(first, last, draws[k])
         && forall i | 0 <= i < k :: !IsFree(Drawn(first, last, draws[i]), vmIPs, hostIPs)
  }

  /** Each number stands for an address of the range; those below its size, which the random source gives,
      stand for one each, in order. */
  lemma DrawnMeaning(first: nat, last: nat, draw: nat)
    requires first < last <= MAX_IP
    ensures first <= IPStringToInt(Drawn(first, last, draw)) <= last
    ensures draw <= last - first ==> Drawn(first, last, draw) == IPIntToString(first + draw)
  {
    var rest := Remainder(draw, last - first + 1);
    DrawnAt(first, last, draw, rest);
    RoundTrip(first + rest);
  }

  lemma Remainder(n: nat, size: nat) returns (rest: nat)
    requires size > 0
    ensures rest == n % size && rest < size && (n < size ==> rest == n)
  {
    rest := n % size;
  }

  lemma DrawnAt(first: nat, last: nat, draw: nat, rest: nat)
    requires first < last <= MAX_IP && rest == draw % (last - first + 1)
    ensures first + rest <= MAX_IP && Drawn(first, last, draw) == IPIntToString(first + rest)
  {
  }

  lemma DottedFour(a: string, b: string, c: string, d: string)
    ensures Dotted([a, b, c, d]) == a + "." + b + "." + c + "." + d
  {
    assert [a, b, c, d][1..] == [b, c, d] && [b, c, d][1..] == [c, d] && [c, d][1..] == [d];
    assert Dotted([c, d]) == c + "." + d && Dotted([b, c, d]) == b + "." + (c + "." + d);
    assert Dotted([a, b, c, d]) == a + "." + (b + "." + (c + "." + d));
  }

  /** The number of a dotted address has its first field in the highest byte. */
  lemma AddressMeaning(a: nat, b: nat, c: nat, d: nat)
    requires a <= 0xFF && b <= 0xFF && c <= 0xFF && d <= 0xFF
    ensures var text := Itoa(a) + "." + Itoa(b) + "." + Itoa(c) + "." + Itoa(d);
      var n := a * 0x100_0000 + b * 0x1_0000 + c * 0x100 + d;
      IPStringToInt(text) == n && n <= MAX_IP && IPIntToString(n) == text
  {
    ReadDotted(a, b, c, d);
    DottedFour(Itoa(a), Itoa(b), Itoa(c), Itoa(d));
    BytesOf(a, b, c, d);
  }

  lemma LastByte(high: nat, low: nat)
    requires low <= 0xFF
    ensures (high * 0x100 + low) / 0x100 == high && (high * 0x100 + low) % 0x100 == low
  {
  }

  lemma BytesOf(a: nat, b: nat, c: nat, d: nat)
    requires a <= 0xFF && b <= 0xFF && c <= 0xFF && d <= 0xFF
    ensures var n := a * 0x100_0000 + b * 0x1_0000 + c * 0x100 + d;
      High(n, 3) == a && High(n, 2) % 0x100 == b && High(n, 1) % 0x100 == c && n % 0x100 == d
  {
    var n1, n2 := a * 0x1_0000 + b * 0x100 + c, a * 0x100 + b;
    var n := n1 * 0x100 + d;
    LastByte(n1, d);
    LastByte(n2, c);
    LastByte(a, b);
    assert High(n, 0) == n && High(n, 1) == n1 && High(n, 2) == n2 && High(n, 3) == a;
  }

  method PickIPv4(ipStart: nat, ipEnd: nat, vmIPs: seq<string>, hostIPs: seq<string>, draws: seq<nat>)
    returns (r: Option<string>)
    requires ipStart <= MAX_IP && ipEnd <= MAX_IP
    ensures r.Some? ==> 0 < ipStart < ipEnd && IsFirstFree(r.value, ipStart, ipEnd, vmIPs, hostIPs, draws)
    ensures r.None? && 0 < ipStart < ipEnd ==>
      forall i | 0 <= i < |draws| :: !IsFree(Drawn(ipStart, ipEnd, draws[i]), vmIPs, hostIPs)
  {
    if ipStart == 0 || ipEnd == 0 || ipStart >= ipEnd {
      return None;
    }
    var candidates := seq(|draws|, i requires 0 <= i < |draws| => Drawn(ipStart, ipEnd, draws[i]));
    assert forall i | 0 <= i < |draws| :: candidates[i] == Drawn(ipStart, ipEnd, draws[i]);
    var k := FirstFree(candidates, vmIPs, hostIPs);
    if k.None? {
      return None;
    }
    return Some(candidates[k.value]);
  }

  method FirstFree(candidates: seq<string>, vmIPs: seq<string>, hostIPs: seq<string>) returns (r: Option<nat>)
    ensures r.Some? ==> r.value < |candidates| && candidates[r.value] !in vmIPs && candidates[r.value] !in hostIPs
    ensures forall i | 0 <= i < (if r.Some? then r.value else |candidates|) ::
      candidates[i] in vmIPs || candidates[i] in hostIPs
  {
    for i := 0 to |candidates|
      invariant forall j | 0 <= j < i :: candidates[j] in vmIPs || candidates[j] in hostIPs
    {
      var ofVM := Taken(candidates[i], vmIPs);
      var ofHost := Taken(candidates[i], hostIPs);
      if !ofVM && !ofHost {
        return Some(i);
      }
    }
    return None;
  }

  method Taken(ip: string, ips: seq<string>) returns (taken: bool)
    ensures taken <==> ip in ips
  {
    taken := false;
    for k := 0 to |ips|
      invariant taken <==> ip in ips[..k]
    {
      if ips[k] == ip {
        taken := true;
      }
    }
  }
}
