/**
 The text a certificate is built from: the holder's display name, the
 declaration sentence passed to the contract constructor, and the two-line
 audit record written next to the deployed contract's address. The declaration
 and the record each have a parser: the declaration's recovers the name and the
 CIN when the CIN has no space, and the record's recovers the declaration and the
 address when neither holds a newline. Nothing else is promised, because the
 facts arrive unvalidated and a space or a newline in them makes the text
 ambiguous.
 */
module Certificate {

  import opened Wrappers
  import opened Strings

  /** `arnd`: the district named in every declaration. */
  const District: string := "Agdal, Rabat"
  /** `name_ck`: the officer named in every declaration. */
  const Officer: string := "Monsieur Amine // Par exemple"

  /** The fixed text before the district. */
  const Preamble: string := "Je suis le cheick d'arrondissement "
  /** The fixed text between the officer and the holder's name. */
  const Acknowledgement: string := " et je reconnais que "
  /** The fixed text before the holder's name. */
  const Opening: string := Preamble + District + ", " + Officer + Acknowledgement
  /** The fixed text between the holder's name and the identity-card number. */
  const Holder: string := " qui a la "
  /** The fixed text after the identity-card number. */
  const Closing: string := " n'exerce actuellement aucune profession"
  /** The caption in front of the contract address on the record's second line. */
  const AddressLabel: string := "Contrat déployé à l'adresse : "

  /** The three constructor arguments of the deployed contract. */
  datatype ConstructorArgs = ConstructorArgs(name: string, date: string, declaration: string)

  /** `name`: the last name, one space, the first name. */
  function DisplayName(firstname: string, lastname: string): (r: string)
    ensures |r| == |lastname| + 1 + |firstname|
    ensures r[..|lastname|] == lastname && r[|lastname|] == ' ' && r[|lastname| + 1..] == firstname
  {
    var r := lastname + " " + firstname;
    assert r[..|lastname|] == lastname && r[|lastname| + 1..] == firstname;
    r
  }

  /** `declaration`: the fixed sentence around the holder's name and CIN. */
  function Declaration(name: string, cin: string): (r: string)
    ensures |r| == |Opening| + |name| + |Holder| + |cin| + |Closing|
    ensures OccursAt(Opening, r, 0)
    ensures OccursAt(Holder, r, |Opening| + |name|)
    ensures OccursAt(Closing, r, |r| - |Closing|)
  {
    FixedParts(Opening, name, Holder, cin, Closing);
    Opening + name + Holder + cin + Closing
  }

  /** Where the fixed parts sit in `a + x + b + y + c`. */
  lemma FixedParts(a: string, x: string, b: string, y: string, c: string)
    ensures var r := a + x + b + y + c;
      OccursAt(a, r, 0) && OccursAt(b, r, |a| + |x|) && OccursAt(c, r, |r| - |c|)
  {
    var r := a + x + b + y + c;
    assert r[..|a|] == a;
    assert r[|a| + |x|..|a| + |x| + |b|] == b;
    assert r[|r| - |c|..] == c;
  }

  /** The contents of the audit file: the declaration and the address line, each
      followed by a newline. */
  function AuditRecord(declaration: string, address: string): (r: string)
    ensures |r| == |declaration| + 1 + |AddressLabel| + |address| + 1
    ensures r[..|declaration|] == declaration && r[|declaration|] == '\n'
    ensures r[|declaration| + 1..|r| - 1] == AddressLabel + address && r[|r| - 1] == '\n'
  {
    var r := declaration + "\n" + AddressLabel + address + "\n";
    assert r[..|declaration|] == declaration;
    assert r[|declaration| + 1..|r| - 1] == AddressLabel + address;
    r
  }

  /** The display name starts with the last name and ends with the first name. */
  lemma DisplayNameParts(firstname: string, lastname: string)
    ensures OccursAt(lastname, DisplayName(firstname, lastname), 0)
    ensures OccursAt(firstname, DisplayName(firstname, lastname), |lastname| + 1)
    ensures |DisplayName(firstname, lastname)| == |lastname| + 1 + |firstname|
  {
    var n := DisplayName(firstname, lastname);
    assert n[0..|lastname|] == lastname;
    assert n[|lastname| + 1..|lastname| + 1 + |firstname|] == firstname;
  }

  /** The name and the CIN appear verbatim in the declaration, at fixed offsets. */
  lemma DeclarationEmbedsFacts(name: string, cin: string)
    ensures OccursAt(name, Declaration(name, cin), |Opening|)
    ensures OccursAt(cin, Declaration(name, cin), |Opening| + |name| + |Holder|)
    ensures IsInfix(name, Declaration(name, cin)) && IsInfix(cin, Declaration(name, cin))
  {
    var d := Declaration(name, cin);
    assert d[|Opening|..|Opening| + |name|] == name;
    assert d[|Opening| + |name| + |Holder|..|Opening| + |name| + |Holder| + |cin|] == cin;
    assert OccursAt(name, d, |Opening|);
    assert OccursAt(cin, d, |Opening| + |name| + |Holder|);
  }

  /** Both parts of the holder's name appear verbatim in the declaration. */
  lemma DeclarationEmbedsNames(firstname: string, lastname: string, cin: string)
    ensures IsInfix(firstname, Declaration(DisplayName(firstname, lastname), cin))
    ensures IsInfix(lastname, Declaration(DisplayName(firstname, lastname), cin))
  {
    var n := DisplayName(firstname, lastname);
    DisplayNameParts(firstname, lastname);
    DeclarationEmbedsFacts(n, cin);
    InfixTransitive(firstname, n, Declaration(n, cin));
    InfixTransitive(lastname, n, Declaration(n, cin));
  }

  /** Reads the name and the CIN back out of a declaration, taking the CIN to be
      the text after the last space; the facts come back only when the CIN has
      no space. */
  function ParseDeclaration(d: string): Option<(string, string)> {
    ParseFilled(d, Opening, Holder, Closing)
  }

  /** Reads `name` and `cin` back out of `opening + name + holder + cin + closing`,
      taking `cin` to be the text after the last space. */
  function ParseFilled(d: string, opening: string, holder: string, closing: string): Option<(string, string)> {
    if |d| < |opening| + |closing| || d[..|opening|] != opening || d[|d| - |closing|..] != closing then None
    else
      var m := d[|opening|..|d| - |closing|];
      match LastIndexOf(m, ' ')
      case None => None
      case Some(j) =>
        if j + 1 < |holder| || m[j + 1 - |holder|..j + 1] != holder then None
        else Some((m[..j + 1 - |holder|], m[j + 1..]))
  }

  /** An occurrence with none after it is the last occurrence. */
  lemma LastIndexOfAt(m: string, c: char, j: nat)
    requires j < |m| && m[j] == c
    requires forall k :: j < k < |m| ==> m[k] != c
    ensures LastIndexOf(m, c) == Some(j)
  {
  }

  /** Every parse of a filled template is exact. */
  lemma ParseFilledSound(d: string, opening: string, holder: string, closing: string)
    ensures ParseFilled(d, opening, holder, closing).Some? ==>
      var r := ParseFilled(d, opening, holder, closing).value;
      opening + r.0 + holder + r.1 + closing == d
  {
    var r := ParseFilled(d, opening, holder, closing);
    if r.Some? {
      var m := d[|opening|..|d| - |closing|];
      var j := LastIndexOf(m, ' ').value;
      assert r.value == (m[..j + 1 - |holder|], m[j + 1..]);
      Refill(d, opening, holder, closing, j + 1 - |holder|, j + 1);
    }
  }

  /** A text that starts with `opening`, ends with `closing` and has `holder` between
      positions `a` and `b` of the middle is that template filled with the rest. */
  lemma Refill(d: string, opening: string, holder: string, closing: string, a: nat, b: nat)
    requires |opening| + |closing| <= |d| && d[..|opening|] == opening && d[|d| - |closing|..] == closing
    requires a <= b <= |d| - |closing| - |opening|
    requires d[|opening|..|d| - |closing|][a..b] == holder
    ensures var m := d[|opening|..|d| - |closing|];
      opening + m[..a] + holder + m[b..] + closing == d
  {
    var m := d[|opening|..|d| - |closing|];
    SplitThree(m, a, b);
    SplitThree(d, |opening|, |d| - |closing|);
    assert opening + m[..a] + holder + m[b..] + closing == opening + (m[..a] + m[a..b] + m[b..]) + closing;
  }

  /** A filled template gives back its two parts when the holder text ends in a
      space and the second part has none. */
  lemma ParseFilledComplete(name: string, cin: string, opening: string, holder: string, closing: string)
    requires ' ' !in cin && |holder| > 0 && holder[|holder| - 1] == ' '
    ensures ParseFilled(opening + name + holder + cin + closing, opening, holder, closing) == Some((name, cin))
  {
    var d := opening + name + holder + cin + closing;
    var m := name + holder + cin;
    assert d == opening + m + closing;
    assert d[..|opening|] == opening;
    assert d[|d| - |closing|..] == closing;
    assert d[|opening|..|d| - |closing|] == m;
    var j := |name| + |holder| - 1;
    assert m[j] == holder[|holder| - 1];
    forall k | j < k < |m|
      ensures m[k] != ' '
    {
      assert m[k] == cin[k - j - 1];
    }
    LastIndexOfAt(m, ' ', j);
    assert m[j + 1 - |holder|..j + 1] == holder;
    assert m[..j + 1 - |holder|] == name;
    assert m[j + 1..] == cin;
  }

  /** Every parse is exact: the parsed facts rebuild the very same declaration. */
  lemma ParseDeclarationSound(d: string)
    ensures ParseDeclaration(d).Some? ==> Declaration(ParseDeclaration(d).value.0, ParseDeclaration(d).value.1) == d
  {
    ParseFilledSound(d, Opening, Holder, Closing);
  }

  /** A CIN without spaces is recovered from the declaration together with the name,
      whatever the name contains. */
  lemma ParseDeclarationComplete(name: string, cin: string)
    requires ' ' !in cin
    ensures ParseDeclaration(Declaration(name, cin)) == Some((name, cin))
  {
    assert Holder[|Holder| - 1] == ' ';
    ParseFilledComplete(name, cin, Opening, Holder, Closing);
  }

  /** With a CIN free of spaces, different facts give different declarations. */
  lemma DeclarationInjective(name1: string, cin1: string, name2: string, cin2: string)
    requires ' ' !in cin1 && ' ' !in cin2
    requires Declaration(name1, cin1) == Declaration(name2, cin2)
    ensures name1 == name2 && cin1 == cin2
  {
    ParseDeclarationComplete(name1, cin1);
    ParseDeclarationComplete(name2, cin2);
  }

  /** The fixed parts of the sentence hold no newline, so the declaration has one
      only when the name or the CIN does. */
  lemma DeclarationNewlines(name: string, cin: string)
    ensures '\n' in Declaration(name, cin) <==> '\n' in name || '\n' in cin
  {
    FixedTextNewlineFree();
  }

  /** None of the fixed texts contains a newline. */
  lemma FixedTextNewlineFree()
    ensures '\n' !in Opening && '\n' !in Holder && '\n' !in Closing && '\n' !in AddressLabel
  {
    PreambleNewlineFree();
    OfficerNewlineFree();
    AcknowledgementNewlineFree();
    ClosingNewlineFree();
    AddressLabelNewlineFree();
  }

  lemma PreambleNewlineFree() ensures '\n' !in Preamble {}
  lemma OfficerNewlineFree() ensures '\n' !in District + ", " + Officer {}
  lemma AcknowledgementNewlineFree() ensures '\n' !in Acknowledgement && '\n' !in Holder {}
  lemma ClosingNewlineFree() ensures '\n' !in Closing {}
  lemma AddressLabelNewlineFree() ensures '\n' !in AddressLabel {}

  /** When neither the declaration nor the address contains a newline, the record
      consists of exactly two lines: the declaration and the labelled address. */
  lemma AuditRecordLines(declaration: string, address: string)
    requires '\n' !in declaration && '\n' !in address
    ensures Lines(AuditRecord(declaration, address)) == [declaration, AddressLabel + address]
  {
    AddressLabelNewlineFree();
    LabelledLines(declaration, AddressLabel, address);
  }

  /** `first + "\n" + caption + value + "\n"` is the two lines `first` and `caption + value`
      when none of the three parts holds a newline. */
  lemma LabelledLines(first: string, caption: string, value: string)
    requires '\n' !in first && '\n' !in caption && '\n' !in value
    ensures Lines(first + "\n" + caption + value + "\n") == [first, caption + value]
  {
    var second := caption + value;
    var tail := second + "\n";
    SingleLine(second);
    LinesCons(first, tail);
    Regroup(first, caption, value);
  }

  /** A newline-free text followed by one newline is a single line. */
  lemma SingleLine(line: string)
    requires '\n' !in line
    ensures Lines(line + "\n") == [line]
  {
    LinesCons(line, "");
    assert line + "\n" + "" == line + "\n";
    assert Lines("") == [];
  }

  /** Reads the declaration and the address back out of an audit record: the first
      line, and the rest of the second line after the address caption. The facts
      come back only when neither of them holds a newline. */
  function ParseAuditRecord(t: string): Option<(string, string)> {
    ParseLabelled(t, AddressLabel)
  }

  /** Reads `first` and `value` back out of `first + "\n" + caption + value + "\n"`. */
  function ParseLabelled(t: string, caption: string): Option<(string, string)> {
    var i := IndexOf(t, '\n');
    if i == |t| then None
    else
      var rest := t[i + 1..];
      if |rest| == 0 || rest[|rest| - 1] != '\n' then None
      else
        var second := rest[..|rest| - 1];
        if '\n' in second || |second| < |caption| || second[..|caption|] != caption then None
        else Some((t[..i], second[|caption|..]))
  }

  /** Two newline-free parts written around a newline-free caption parse back. */
  lemma ParseLabelledComplete(first: string, caption: string, value: string)
    requires '\n' !in first && '\n' !in caption && '\n' !in value
    ensures ParseLabelled(first + "\n" + caption + value + "\n", caption) == Some((first, value))
  {
    var t := first + "\n" + caption + value + "\n";
    var second := caption + value;
    assert forall k :: 0 <= k < |first| ==> t[k] == first[k];
    assert t[|first|] == '\n';
    assert IndexOf(t, '\n') == |first|;
    assert t[..|first|] == first;
    assert t[|first| + 1..] == second + "\n";
    assert (second + "\n")[..|second|] == second;
    assert second[..|caption|] == caption;
    assert second[|caption|..] == value;
  }

  /** Whatever parses was written from newline-free parts around the caption. */
  lemma ParseLabelledSound(t: string, caption: string)
    ensures ParseLabelled(t, caption).Some? ==>
      var r := ParseLabelled(t, caption).value;
      && r.0 + "\n" + caption + r.1 + "\n" == t
      && '\n' !in r.0 && '\n' !in r.1
  {
    var r := ParseLabelled(t, caption);
    if r.Some? {
      var i := IndexOf(t, '\n');
      var first, rest := t[..i], t[i + 1..];
      var second := rest[..|rest| - 1];
      var value := second[|caption|..];
      assert r.value == (first, value);
      assert forall k :: 0 <= k < i ==> first[k] == t[k];
      assert forall k :: 0 <= k < |value| ==> value[k] == second[|caption| + k];
      SplitThree(second, |caption|, |caption|);
      assert second == caption + value;
      SplitThree(rest, |rest| - 1, |rest| - 1);
      assert rest == second + "\n";
      SplitThree(t, i, i + 1);
      assert t[i..i + 1] == "\n";
      assert t == first + "\n" + rest;
      Regroup(first, caption, value);
    }
  }

  /** Regrouping the five pieces of a record. */
  lemma Regroup(first: string, caption: string, value: string)
    ensures first + "\n" + caption + value + "\n" == first + "\n" + ((caption + value) + "\n")
  {
  }

  /** A record written from a declaration and an address that hold no newline
      parses back to them. */
  lemma ParseAuditRecordComplete(declaration: string, address: string)
    requires '\n' !in declaration && '\n' !in address
    ensures ParseAuditRecord(AuditRecord(declaration, address)) == Some((declaration, address))
  {
    AddressLabelNewlineFree();
    ParseLabelledComplete(declaration, AddressLabel, address);
  }

  /** Whatever parses is a record written from newline-free parts. */
  lemma ParseAuditRecordSound(t: string)
    ensures ParseAuditRecord(t).Some? ==>
      && AuditRecord(ParseAuditRecord(t).value.0, ParseAuditRecord(t).value.1) == t
      && '\n' !in ParseAuditRecord(t).value.0
      && '\n' !in ParseAuditRecord(t).value.1
  {
    ParseLabelledSound(t, AddressLabel);
  }

  /** Everything the issued texts promise about the caller's facts: where the
      names sit in the display name, that every fact appears in the declaration,
      that the declaration gives back the name and the CIN when the CIN has no
      space, and that the audit record gives back the declaration and the address
      when neither holds a newline. */
  lemma IssuedText(firstname: string, lastname: string, cin: string, address: string)
    ensures var name := DisplayName(firstname, lastname);
      var declaration := Declaration(name, cin);
      var record := AuditRecord(declaration, address);
      && OccursAt(lastname, name, 0)
      && OccursAt(firstname, name, |lastname| + 1)
      && |name| == |lastname| + 1 + |firstname|
      && IsInfix(cin, declaration)
      && IsInfix(firstname, declaration)
      && IsInfix(lastname, declaration)
      && (' ' !in cin ==> ParseDeclaration(declaration) == Some((name, cin)))
      && ('\n' !in declaration && '\n' !in address ==>
            && Lines(record) == [declaration, AddressLabel + address]
            && ParseAuditRecord(record) == Some((declaration, address)))
  {
    var name := DisplayName(firstname, lastname);
    var declaration := Declaration(name, cin);
    DisplayNameParts(firstname, lastname);
    DeclarationEmbedsFacts(name, cin);
    DeclarationEmbedsNames(firstname, lastname, cin);
    if ' ' !in cin {
      ParseDeclarationComplete(name, cin);
    }
    if '\n' !in declaration && '\n' !in address {
      AuditRecordLines(declaration, address);
      ParseAuditRecordComplete(declaration, address);
    }
  }
}
