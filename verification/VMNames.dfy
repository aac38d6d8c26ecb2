/** VM names: what makes a VM unique is a name and a revision. */
module VMNames {
  import opened Results
  import opened Text

  datatype VMName = VMName(name: string, revision: int) {
    /** The unique ID of the VM: revision 0 is not written. */
    function ID(): string {
      if revision == 0 then name else name + "-r" + Itoa(revision)
    }
  }

  /** The names that the config reader and the name parser accept. */
  predicate ValidName(s: string) {
    s != [] && AllWordChars(s)
  }

  predicate Valid(n: VMName) {
    ValidName(n.name) && 0 <= n.revision
  }

  /** Recognises ^([A-Za-z0-9_]+)(-r([0-9]+))?$ : the name stops at the first dash, since
      no word character is one. */
  function ParseVMName(id: string): Option<VMName> {
    var dash := IndexFrom(id, "-", 0);
    var name := if dash < 0 then id else id[..dash];
    if !ValidName(name) then None
    else if dash < 0 then Some(VMName(name, 0))
    else
      var suffix := id[dash..];
      if |suffix| < 3 || suffix[..2] != "-r" || !AllDigits(suffix[2..]) then None
      else
        var revision := Atoi(suffix[2..]);
        if revision.None? then None else Some(VMName(name, revision.value))
  }

  lemma NoDashInName(name: string)
    requires AllWordChars(name)
    ensures '-' !in name
  {
  }

  /** Cutting an ID at its first dash gives back the name and the printed revision. */
  lemma CutId(n: VMName)
    requires Valid(n)
    ensures var dash := IndexFrom(n.ID(), "-", 0);
      if n.revision == 0 then dash == -1
      else dash == |n.name| && n.ID()[..dash] == n.name && n.ID()[dash..] == "-r" + NatToString(n.revision)
  {
    NoDashInName(n.name);
    var id := n.ID();
    if n.revision == 0 {
      NotContained(id, "-", '-');
    } else {
      assert id == n.name + ("-r" + NatToString(n.revision));
      assert At(id, "-", |n.name|);
      forall j | 0 <= j < |n.name| ensures !At(id, "-", j) {
        assert id[j..j + 1][0] == n.name[j];
      }
    }
  }

  /** Parsing an ID gives the name and revision it was printed from. */
  lemma ParseOfId(n: VMName)
    requires Valid(n) && n.revision <= MAX_INT
    ensures ParseVMName(n.ID()) == Some(n)
  {
    CutId(n);
    AtoiItoa(n.revision);
    assert n.revision != 0 ==> ("-r" + NatToString(n.revision))[2..] == NatToString(n.revision);
  }

  /** Two different (name, revision) pairs never share an ID. */
  lemma IdInjective(a: VMName, b: VMName)
    requires Valid(a) && Valid(b) && a.ID() == b.ID()
    ensures a == b
  {
    CutId(a);
    CutId(b);
    if a.revision != 0 {
      var sa, sb := NatToString(a.revision), NatToString(b.revision);
      assert sa == ("-r" + sa)[2..] && sb == ("-r" + sb)[2..];
    }
  }

  lemma PaddedRevision(name: string, digits: string)
    requires AllWordChars(name) && AllDigits(digits) && digits != []
    ensures Contains(name + "-r" + digits, "-r0") <==> digits[0] == '0'
  {
    var s := name + "-r" + digits;
    assert s[|name|..|name| + 3] == "-r" + [digits[0]];
    assert At(s, "-r0", |name|) <==> digits[0] == '0' by {
      assert ("-r" + [digits[0]])[2] == digits[0] && "-r0"[2] == '0';
    }
    forall j | 0 <= j && j != |name| ensures !At(s, "-r0", j) {
      if j + 3 <= |s| {
        assert s[j..j + 3][0] == s[j] && "-r0"[0] == '-';
        assert j < |name| ==> s[j] == name[j] && IsWordChar(name[j]);
        assert j == |name| + 1 ==> s[j] == 'r';
        assert j > |name| + 1 ==> s[j] == digits[j - |name| - 2] && digits[j - |name| - 2] in digits;
      }
    }
  }

  /** The canonical form of a revision suffix, and of no suffix when the revision is 0. */
  lemma SuffixOfRevision(name: string, digits: string)
    requires AllDigits(digits) && digits != []
    ensures VMName(name, DigitsValue(digits)).ID() == name + "-r" + digits <==> digits[0] != '0'
  {
    var n := DigitsValue(digits);
    if digits[0] != '0' {
      CanonicalDigits(digits);
    } else if n != 0 {
      var printed := NatToString(n);
      assert (name + "-r" + printed)[|name| + 2..] == printed;
      assert (name + "-r" + digits)[|name| + 2..] == digits;
    }
  }

  /** A parsed ID is printed back unchanged exactly when its revision has no leading zero
      ("vm-r0" and "vm-r01" are accepted, but name the same VMs as "vm" and "vm-r1"). */
  lemma IdOfParse(id: string)
    requires ParseVMName(id).Some?
    ensures Valid(ParseVMName(id).value)
    ensures ParseVMName(id).value.ID() == id <==> !Contains(id, "-r0")
  {
    var dash := IndexFrom(id, "-", 0);
    var name := ParseVMName(id).value.name;
    if dash < 0 {
      NoDashInName(id);
      NotContained(id, "-r0", '-');
    } else {
      var digits := id[dash..][2..];
      AtoiDigits(digits);
      assert id == name + "-r" + digits by {
        assert id[dash..] == id[dash..][..2] + digits;
      }
      PaddedRevision(name, digits);
      SuffixOfRevision(name, digits);
    }
  }

  /** A name with a revision, in the form of an ID. */
  ghost predicate Written(id: string, name: string, digits: string) {
    && name != "" && AllWordChars(name)
    && (id == name
        || (id == name + "-r" + digits && digits != "" && AllDigits(digits) && DigitsValue(digits) <= MAX_INT))
  }

  lemma CutText(name: string, digits: string)
    requires AllWordChars(name)
    ensures var id := name + "-r" + digits;
      IndexFrom(id, "-", 0) == |name| && id[..|name|] == name && id[|name|..] == "-r" + digits
  {
    var id := name + "-r" + digits;
    NoDashInName(name);
    assert id == name + ("-r" + digits);
    assert At(id, "-", |name|);
    forall j | 0 <= j < |name| ensures !At(id, "-", j) {
      assert id[j..j + 1][0] == name[j];
    }
  }

  /** An ID is a name, alone for revision 0, or followed by -r and the digits of its revision. */
  lemma ParseWritten(name: string, digits: string)
    requires name != "" && AllWordChars(name) && digits != "" && AllDigits(digits)
    ensures ParseVMName(name) == Some(VMName(name, 0))
    ensures ParseVMName(name + "-r" + digits) ==
      if DigitsValue(digits) <= MAX_INT then Some(VMName(name, DigitsValue(digits))) else None
  {
    NoDashInName(name);
    NotContained(name, "-", '-');
    CutText(name, digits);
    AtoiMeaning(digits);
    assert ("-r" + digits)[..2] == "-r" && ("-r" + digits)[2..] == digits;
  }

  /** And nothing else is one. */
  lemma ParseAcceptsIff(id: string)
    ensures ParseVMName(id).Some? <==> exists name, digits :: Written(id, name, digits)
  {
    if name, digits :| Written(id, name, digits) {
      ParseWritten(name, if digits != "" && AllDigits(digits) then digits else "0");
    }
    if ParseVMName(id).Some? {
      var dash := IndexFrom(id, "-", 0);
      if dash < 0 {
        assert Written(id, id, "");
      } else {
        var name, digits := id[..dash], id[dash..][2..];
        AtoiDigits(digits);
        assert id == name + "-r" + digits by {
          assert id[dash..] == id[dash..][..2] + digits;
        }
        assert Written(id, name, digits);
      }
    }
  }

  lemma AtoiDigits(digits: string)
    requires AllDigits(digits) && Atoi(digits).Some?
    ensures digits != [] && Atoi(digits).value == DigitsValue(digits)
  {
    assert digits == [] || IsDigit(digits[0]);
  }
}
