/** The test-suite beans.xml asset: class lists set through builder calls, and the XML
    document `openStream` writes for them. */
module BeansXmlWriter {
  import opened Outcomes
  import opened Throwables
  import opened TextUtil

  type ClassName = string

  datatype BeanDiscoveryMode = NONE | ANNOTATED | ALL

  /** The attribute value each mode is written with. */
  function ModeValue(m: BeanDiscoveryMode): string
  {
    match m
    case NONE => "none"
    case ANNOTATED => "annotated"
    case ALL => "all"
  }

  /** The asset. `suppressor` marks the shared SUPPRESSOR instance, whose lists are
      immutable empty lists and whose mode getter always answers NONE. */
  datatype BeansXml = BeansXml(
    alternatives: seq<ClassName>,
    interceptors: seq<ClassName>,
    decorators: seq<ClassName>,
    stereotypes: seq<ClassName>,
    mode: BeanDiscoveryMode,
    suppressor: bool)

  /** The public constructor: empty lists and mode ALL. */
  const NEW: BeansXml := BeansXml([], [], [], [], ALL, false)

  const SUPPRESSOR: BeansXml := BeansXml([], [], [], [], ALL, true)

  function GetBeanDiscoveryMode(b: BeansXml): BeanDiscoveryMode {
    if b.suppressor then NONE else b.mode
  }

  datatype ListKind = Alternatives | Interceptors | Decorators | Stereotypes

  function ListOf(b: BeansXml, k: ListKind): seq<ClassName> {
    match k
    case Alternatives => b.alternatives
    case Interceptors => b.interceptors
    case Decorators => b.decorators
    case Stereotypes => b.stereotypes
  }

  /** `setBeanDiscoveryMode`: only the mode changes, and the SUPPRESSOR still answers NONE. */
  function SetBeanDiscoveryMode(b: BeansXml, mode: BeanDiscoveryMode): (r: BeansXml)
    ensures !b.suppressor ==> GetBeanDiscoveryMode(r) == mode
    ensures b.suppressor ==> GetBeanDiscoveryMode(r) == NONE
    ensures forall k :: ListOf(r, k) == ListOf(b, k)
    ensures r.suppressor == b.suppressor
  {
    b.(mode := mode)
  }

  /** The builder methods `alternatives`, `interceptors`, `decorators` and `stereotype`:
      the classes are appended and the same asset is returned. The SUPPRESSOR's immutable
      lists refuse any element. */
  function Append(b: BeansXml, k: ListKind, classes: seq<ClassName>): (r: Result<BeansXml, Throwable>)
    ensures b.suppressor && |classes| > 0 ==> r == Err(UnsupportedOperation)
    ensures !(b.suppressor && |classes| > 0) ==> r.Ok?
    ensures r.Ok? ==> ListOf(r.value, k) == ListOf(b, k) + classes
    ensures r.Ok? ==> forall other :: other != k ==> ListOf(r.value, other) == ListOf(b, other)
    ensures r.Ok? ==> GetBeanDiscoveryMode(r.value) == GetBeanDiscoveryMode(b) && r.value.suppressor == b.suppressor
  {
    if b.suppressor && |classes| > 0 then Err(UnsupportedOperation)
    else
      match k
      case Alternatives => Ok(b.(alternatives := b.alternatives + classes))
      case Interceptors => Ok(b.(interceptors := b.interceptors + classes))
      case Decorators => Ok(b.(decorators := b.decorators + classes))
      case Stereotypes => Ok(b.(stereotypes := b.stereotypes + classes))
  }

  // ---- the document ----

  function Open(tag: string): string { "<" + tag + ">" }
  function Close(tag: string): string { "</" + tag + ">\n" }

  /** One `appendClasses` line. */
  function Entry(tag: string, c: ClassName): string {
    Open(tag) + c + Close(tag)
  }

  /** `appendClasses`: one line per class, in list order. */
  function Entries(tag: string, classes: seq<ClassName>): (s: string)
    ensures |classes| == 0 <==> |s| == 0
  {
    if |classes| == 0 then [] else Entry(tag, classes[0]) + Entries(tag, classes[1..])
  }

  /** The line opening a section. */
  function SectionOpen(name: string): string { "<" + name + ">\n" }

  /** `appendSection`: nothing for an empty list, else the entries between opening and
      closing tags. */
  function Section(name: string, subName: string, classes: seq<ClassName>): (s: string)
    ensures |s| == 0 <==> |classes| == 0
  {
    if |classes| > 0 then SectionOpen(name) + Entries(subName, classes) + Close(name) else []
  }

  /** `appendAlternatives`: one section holding the class entries, then the stereotype
      entries; nothing when both lists are empty. */
  function AlternativesSection(alternatives: seq<ClassName>, stereotypes: seq<ClassName>): (s: string)
    ensures |s| == 0 <==> |alternatives| == 0 && |stereotypes| == 0
  {
    if |alternatives| > 0 || |stereotypes| > 0 then
      "<alternatives>\n" + Entries("class", alternatives) + Entries("stereotype", stereotypes) + Close("alternatives")
    else []
  }

  function Header(m: BeanDiscoveryMode): string {
    "<beans version=\"1.1\" bean-discovery-mode=\"" + ModeValue(m) + "\">\n"
  }

  const FOOTER: string := "</beans>"

  /** `openStream`, as the text written (its conversion to bytes in the platform charset
      is not modelled). */
  function OpenStream(b: BeansXml): (xml: string)
    ensures StartsWith(xml, Header(GetBeanDiscoveryMode(b)))
    ensures |xml| >= |FOOTER| && xml[|xml| - |FOOTER|..] == FOOTER
  {
    var head := Header(GetBeanDiscoveryMode(b));
    var body := AlternativesSection(b.alternatives, b.stereotypes)
                + Section("interceptors", "class", b.interceptors)
                + Section("decorators", "class", b.decorators);
    var xml := head + body + FOOTER;
    assert xml[..|head|] == head;
    assert xml[|xml| - |FOOTER|..] == FOOTER;
    xml
  }

  // ---- reading the entries back ----

  /** A Java class name never contains `<`. */
  predicate PlainName(c: ClassName) {
    forall i :: 0 <= i < |c| ==> c[i] != '<'
  }

  /** Reads a run of entries for `tag` back into class names: each entry is the opening tag,
      the name up to the next `<`, and the closing tag. */
  function ParseEntries(tag: string, s: string): (r: Option<seq<ClassName>>)
    decreases |s|
  {
    if |s| == 0 then Some([])
    else if !StartsWith(s, Open(tag)) then None
    else
      var rest := s[|Open(tag)|..];
      var k := IndexOf(rest, "<");
      if k < 0 then None
      else
        var after := rest[k..];
        if !StartsWith(after, Close(tag)) then None
        else
          match ParseEntries(tag, after[|Close(tag)|..])
          case None => None
          case Some(tail) => Some([rest[..k]] + tail)
  }

  /** The first `<` after a plain name is the one that opens the closing tag. */
  lemma FirstOpenAfterName(c: ClassName, tail: string)
    requires PlainName(c) && |tail| > 0 && tail[0] == '<'
    ensures IndexOf(c + tail, "<") == |c|
  {
    var s := c + tail;
    assert OccursAt(s, "<", |c|) by {
      assert s[|c|..|c| + 1] == [tail[0]];
    }
    forall i: nat | i < |c|
      ensures !OccursAt(s, "<", i)
    {
      assert s[i] == c[i];
      assert s[i..i + 1] == [s[i]];
    }
  }

  /** One entry for a plain name, read back at the start of the entries. */
  lemma ParseEntriesStep(tag: string, c: ClassName, more: string)
    requires PlainName(c)
    ensures ParseEntries(tag, Open(tag) + (c + (Close(tag) + more))) ==
              match ParseEntries(tag, more)
              case None => None
              case Some(tail) => Some([c] + tail)
  {
    var s := Open(tag) + (c + (Close(tag) + more));
    StartsWithConcat(Open(tag), c + (Close(tag) + more));
    var rest := s[|Open(tag)|..];
    FirstOpenAfterName(c, Close(tag) + more);
    assert rest[..|c|] == c;
    assert rest[|c|..] == Close(tag) + more;
    StartsWithConcat(Close(tag), more);
  }

  /** The entries for a non-empty list: the first entry's three parts, then the rest. */
  lemma EntriesShape(tag: string, classes: seq<ClassName>)
    requires |classes| > 0
    ensures Entries(tag, classes) == Open(tag) + (classes[0] + (Close(tag) + Entries(tag, classes[1..])))
  {
    var a, b, c, d := Open(tag), classes[0], Close(tag), Entries(tag, classes[1..]);
    assert a + b + c + d == a + (b + (c + d));
  }

  /** Reading back the entries written for a list of plain class names gives the list. */
  lemma {:induction false} EntriesRoundTrip(tag: string, classes: seq<ClassName>)
    requires forall i :: 0 <= i < |classes| ==> PlainName(classes[i])
    ensures ParseEntries(tag, Entries(tag, classes)) == Some(classes)
    decreases |classes|
  {
    if |classes| > 0 {
      var c := classes[0];
      var more := Entries(tag, classes[1..]);
      EntriesShape(tag, classes);
      assert ParseEntries(tag, more) == Some(classes[1..]) by {
        EntriesRoundTrip(tag, classes[1..]);
      }
      ParseEntriesStep(tag, c, more);
      assert [c] + classes[1..] == classes;
    }
  }

  // ---- reading the whole document back ----

  /** What a reader of the document recovers: the mode and the four lists. */
  datatype Document = Document(
    mode: BeanDiscoveryMode,
    alternatives: seq<ClassName>,
    stereotypes: seq<ClassName>,
    interceptors: seq<ClassName>,
    decorators: seq<ClassName>)

  /** Reads the longest run of entries for `tag` at the start of `s`, and what follows it. */
  function ParseRun(tag: string, s: string): (r: (seq<ClassName>, string))
    decreases |s|
  {
    if !StartsWith(s, Open(tag)) then ([], s)
    else
      var rest := s[|Open(tag)|..];
      var k := IndexOf(rest, "<");
      if k < 0 then ([], s)
      else
        var after := rest[k..];
        if !StartsWith(after, Close(tag)) then ([], s)
        else
          var (tail, remaining) := ParseRun(tag, after[|Close(tag)|..]);
          ([rest[..k]] + tail, remaining)
  }

  /** The mode from the header, and the text after the header. */
  function ReadHeader(xml: string): Option<(BeanDiscoveryMode, string)> {
    if StartsWith(xml, Header(NONE)) then Some((NONE, xml[|Header(NONE)|..]))
    else if StartsWith(xml, Header(ANNOTATED)) then Some((ANNOTATED, xml[|Header(ANNOTATED)|..]))
    else if StartsWith(xml, Header(ALL)) then Some((ALL, xml[|Header(ALL)|..]))
    else None
  }

  /** The alternatives section, if present: its class entries, then its stereotype entries. */
  function ReadAlternatives(s: string): Option<(seq<ClassName>, seq<ClassName>, string)> {
    var open := "<alternatives>\n";
    if !StartsWith(s, open) then Some(([], [], s))
    else
      var (classes, r1) := ParseRun("class", s[|open|..]);
      var (stereotypes, r2) := ParseRun("stereotype", r1);
      if StartsWith(r2, Close("alternatives")) then Some((classes, stereotypes, r2[|Close("alternatives")|..]))
      else None
  }

  /** A class-list section called `name`, if present. */
  function ReadSection(name: string, s: string): Option<(seq<ClassName>, string)> {
    var open := SectionOpen(name);
    if !StartsWith(s, open) then Some(([], s))
    else
      var (classes, r1) := ParseRun("class", s[|open|..]);
      if StartsWith(r1, Close(name)) then Some((classes, r1[|Close(name)|..])) else None
  }

  /** Reads a whole document: the header, the optional alternatives, interceptors and
      decorators sections in that order, and the closing tag. */
  function ReadDocument(xml: string): Option<Document> {
    match ReadHeader(xml)
    case None => None
    case Some((mode, s0)) =>
      match ReadAlternatives(s0)
      case None => None
      case Some((alternatives, stereotypes, s1)) =>
        match ReadSection("interceptors", s1)
        case None => None
        case Some((interceptors, s2)) =>
          match ReadSection("decorators", s2)
          case None => None
          case Some((decorators, s3)) =>
            if s3 == FOOTER then Some(Document(mode, alternatives, stereotypes, interceptors, decorators)) else None
  }

  /** A text whose character `i` differs from the pattern's does not start with it. */
  lemma DifferAt(s: string, p: string, i: nat)
    requires i < |s| && i < |p| && s[i] != p[i]
    ensures !StartsWith(s, p)
  {
  }

  lemma StartsWithConcat(p: string, t: string)
    ensures StartsWith(p + t, p) && (p + t)[|p|..] == t
  {
    assert (p + t)[..|p|] == p;
  }

  /** Entries for a non-empty list begin with the entry's opening tag. */
  lemma EntriesBeginWithTag(tag: string, classes: seq<ClassName>, after: string)
    requires |classes| > 0
    ensures Entries(tag, classes) + after == Open(tag) + (classes[0] + Close(tag) + Entries(tag, classes[1..]) + after)
  {
  }

  /** One entry for a plain name, read back at the start of a run. */
  lemma ParseRunStep(tag: string, c: ClassName, more: string)
    requires PlainName(c)
    ensures ParseRun(tag, Open(tag) + (c + (Close(tag) + more))) == ([c] + ParseRun(tag, more).0, ParseRun(tag, more).1)
  {
    var s := Open(tag) + (c + (Close(tag) + more));
    StartsWithConcat(Open(tag), c + (Close(tag) + more));
    var rest := s[|Open(tag)|..];
    FirstOpenAfterName(c, Close(tag) + more);
    assert rest[..|c|] == c;
    assert rest[|c|..] == Close(tag) + more;
    StartsWithConcat(Close(tag), more);
  }

  /** Reading a run back stops exactly where the written entries end. */
  lemma {:induction false} RunRoundTrip(tag: string, classes: seq<ClassName>, after: string)
    requires forall i :: 0 <= i < |classes| ==> PlainName(classes[i])
    requires !StartsWith(after, Open(tag))
    ensures ParseRun(tag, Entries(tag, classes) + after) == (classes, after)
    decreases |classes|
  {
    if |classes| == 0 {
      assert Entries(tag, classes) + after == after;
    } else {
      var c := classes[0];
      var more := Entries(tag, classes[1..]) + after;
      assert Entries(tag, classes) + after == Open(tag) + (c + (Close(tag) + more)) by {
        EntriesBeginWithTag(tag, classes, after);
        Regroup(Open(tag), c, Close(tag), Entries(tag, classes[1..]), after);
      }
      ParseRunStep(tag, c, more);
      RunRoundTrip(tag, classes[1..], after);
      assert [c] + classes[1..] == classes;
    }
  }

  /** The second character of the alternatives section and of a class section, when they
      are written, is the first letter of the section's name. */
  lemma SectionSecondChars(b: BeansXml, after: string)
    ensures |b.alternatives| > 0 || |b.stereotypes| > 0 ==>
              var s := AlternativesSection(b.alternatives, b.stereotypes) + after; |s| > 1 && s[1] == 'a'
    ensures |b.interceptors| > 0 ==>
              var s := Section("interceptors", "class", b.interceptors) + after; |s| > 1 && s[1] == 'i'
    ensures |b.decorators| > 0 ==>
              var s := Section("decorators", "class", b.decorators) + after; |s| > 1 && s[1] == 'd'
  {
  }

  lemma Regroup(a: string, b: string, c: string, d: string, e: string)
    ensures a + b + c + d + e == a + (b + (c + (d + e)))
  {
  }

  lemma RegroupBody(a: string, b: string, c: string, d: string, e: string)
    ensures a + (b + c + d) + e == a + (b + (c + (d + e)))
  {
  }

  lemma AlternativesSectionShape(alternatives: seq<ClassName>, stereotypes: seq<ClassName>, after: string)
    requires |alternatives| > 0 || |stereotypes| > 0
    ensures AlternativesSection(alternatives, stereotypes) + after ==
              "<alternatives>\n" + (Entries("class", alternatives) + (Entries("stereotype", stereotypes) + (Close("alternatives") + after)))
  {
    Regroup("<alternatives>\n", Entries("class", alternatives), Entries("stereotype", stereotypes), Close("alternatives"), after);
  }

  /** What follows the class entries of the alternatives section never starts a class entry. */
  lemma AfterAlternativeClasses(stereotypes: seq<ClassName>, rest: string)
    requires |rest| > 1 && rest[1] == '/'
    ensures !StartsWith(Entries("stereotype", stereotypes) + rest, Open("class"))
  {
    if |stereotypes| > 0 {
      EntriesBeginWithTag("stereotype", stereotypes, rest);
      DifferAt(Entries("stereotype", stereotypes) + rest, Open("class"), 1);
    } else {
      DifferAt(rest, Open("class"), 1);
    }
  }

  lemma ReadAlternativesOpen(x: string)
    ensures var open := "<alternatives>\n";
            ReadAlternatives(open + x) ==
              var (classes, r1) := ParseRun("class", x);
              var (stereotypes, r2) := ParseRun("stereotype", r1);
              if StartsWith(r2, Close("alternatives")) then Some((classes, stereotypes, r2[|Close("alternatives")|..]))
              else None
  {
    StartsWithConcat("<alternatives>\n", x);
  }

  lemma {:induction false} AlternativesRoundTrip(alternatives: seq<ClassName>, stereotypes: seq<ClassName>, after: string)
    requires forall i :: 0 <= i < |alternatives| ==> PlainName(alternatives[i])
    requires forall i :: 0 <= i < |stereotypes| ==> PlainName(stereotypes[i])
    requires !StartsWith(after, "<alternatives>\n")
    ensures ReadAlternatives(AlternativesSection(alternatives, stereotypes) + after) == Some((alternatives, stereotypes, after))
  {
    if |alternatives| == 0 && |stereotypes| == 0 {
      assert AlternativesSection(alternatives, stereotypes) + after == after;
    } else {
      var close := Close("alternatives");
      var rest := close + after;
      var tail := Entries("stereotype", stereotypes) + rest;
      var x := Entries("class", alternatives) + tail;
      assert AlternativesSection(alternatives, stereotypes) + after == "<alternatives>\n" + x by {
        AlternativesSectionShape(alternatives, stereotypes, after);
      }
      AlternativeRuns(alternatives, stereotypes, rest);
      assert StartsWith(rest, close) && rest[|close|..] == after by {
        StartsWithConcat(close, after);
      }
      ReadAlternativesOpen(x);
    }
  }

  /** The class run and the stereotype run of a written alternatives section read back
      up to the closing tag. */
  lemma AlternativeRuns(alternatives: seq<ClassName>, stereotypes: seq<ClassName>, rest: string)
    requires forall i :: 0 <= i < |alternatives| ==> PlainName(alternatives[i])
    requires forall i :: 0 <= i < |stereotypes| ==> PlainName(stereotypes[i])
    requires |rest| > 1 && rest[1] == '/'
    ensures ParseRun("class", Entries("class", alternatives) + (Entries("stereotype", stereotypes) + rest)) ==
              (alternatives, Entries("stereotype", stereotypes) + rest)
    ensures ParseRun("stereotype", Entries("stereotype", stereotypes) + rest) == (stereotypes, rest)
  {
    var tail := Entries("stereotype", stereotypes) + rest;
    assert ParseRun("class", Entries("class", alternatives) + tail) == (alternatives, tail) by {
      AfterAlternativeClasses(stereotypes, rest);
      RunRoundTrip("class", alternatives, tail);
    }
    assert ParseRun("stereotype", tail) == (stereotypes, rest) by {
      DifferAt(rest, Open("stereotype"), 1);
      RunRoundTrip("stereotype", stereotypes, rest);
    }
  }

  lemma SectionRoundTrip(name: string, classes: seq<ClassName>, after: string)
    requires |name| > 0 && name[0] != 'c'
    requires forall i :: 0 <= i < |classes| ==> PlainName(classes[i])
    requires !StartsWith(after, SectionOpen(name))
    ensures ReadSection(name, Section(name, "class", classes) + after) == Some((classes, after))
  {
    var open := SectionOpen(name);
    if |classes| == 0 {
      assert Section(name, "class", classes) + after == after;
    } else {
      var close := Close(name);
      var s := Section(name, "class", classes) + after;
      assert s == open + (Entries("class", classes) + (close + after));
      StartsWithConcat(open, Entries("class", classes) + (close + after));
      DifferAt(close + after, Open("class"), 1);
      RunRoundTrip("class", classes, close + after);
      StartsWithConcat(close, after);
    }
  }

  lemma HeaderRoundTrip(m: BeanDiscoveryMode, after: string)
    ensures ReadHeader(Header(m) + after) == Some((m, after))
  {
    var prefix := "<beans version=\"1.1\" bean-discovery-mode=\"";
    var s := Header(m) + after;
    StartsWithConcat(Header(m), after);
    assert s[|prefix|] == ModeValue(m)[0];
    if m != NONE {
      assert Header(NONE)[|prefix|] == 'n';
      DifferAt(s, Header(NONE), |prefix|);
    }
    if m == ALL {
      assert s[|prefix| + 1] == 'l';
      assert Header(ANNOTATED)[|prefix| + 1] == 'n';
      DifferAt(s, Header(ANNOTATED), |prefix| + 1);
    }
  }

  lemma OpenStreamShape(b: BeansXml)
    ensures OpenStream(b) ==
              Header(GetBeanDiscoveryMode(b)) + (AlternativesSection(b.alternatives, b.stereotypes)
                + (Section("interceptors", "class", b.interceptors)
                + (Section("decorators", "class", b.decorators) + FOOTER)))
  {
    RegroupBody(Header(GetBeanDiscoveryMode(b)), AlternativesSection(b.alternatives, b.stereotypes),
                Section("interceptors", "class", b.interceptors), Section("decorators", "class", b.decorators), FOOTER);
  }

  /** After the decorators section only the closing tag is left. */
  lemma FooterStartsNoSection()
    ensures !StartsWith(FOOTER, SectionOpen("decorators"))
    ensures !StartsWith(FOOTER, SectionOpen("interceptors"))
    ensures !StartsWith(FOOTER, "<alternatives>\n")
  {
    DifferAt(FOOTER, SectionOpen("decorators"), 1);
    DifferAt(FOOTER, SectionOpen("interceptors"), 1);
    DifferAt(FOOTER, "<alternatives>\n", 1);
  }

  /** What follows the interceptors section starts neither the interceptors nor the
      alternatives section. */
  lemma AfterInterceptorsDiffers(b: BeansXml)
    ensures var decs := Section("decorators", "class", b.decorators) + FOOTER;
            !StartsWith(decs, SectionOpen("interceptors")) && !StartsWith(decs, "<alternatives>\n")
  {
    var decs := Section("decorators", "class", b.decorators) + FOOTER;
    FooterStartsNoSection();
    if |b.decorators| > 0 {
      SectionSecondChars(b, FOOTER);
      DifferAt(decs, SectionOpen("interceptors"), 1);
      DifferAt(decs, "<alternatives>\n", 1);
    } else {
      assert decs == FOOTER;
    }
  }

  /** What follows the alternatives section does not start it again. */
  lemma AfterAlternativesDiffers(b: BeansXml)
    ensures var decs := Section("decorators", "class", b.decorators) + FOOTER;
            !StartsWith(Section("interceptors", "class", b.interceptors) + decs, "<alternatives>\n")
  {
    var decs := Section("decorators", "class", b.decorators) + FOOTER;
    var ints := Section("interceptors", "class", b.interceptors) + decs;
    if |b.interceptors| > 0 {
      SectionSecondChars(b, decs);
      DifferAt(ints, "<alternatives>\n", 1);
    } else {
      assert ints == decs;
      AfterInterceptorsDiffers(b);
    }
  }

  /** The document `openStream` writes reads back, section by section in the order written
      (alternatives with their stereotypes, then interceptors, then decorators), to the
      asset's mode and its four lists, for class names without `<`. */
  lemma DocumentReadsBack(b: BeansXml)
    requires forall i :: 0 <= i < |b.alternatives| ==> PlainName(b.alternatives[i])
    requires forall i :: 0 <= i < |b.stereotypes| ==> PlainName(b.stereotypes[i])
    requires forall i :: 0 <= i < |b.interceptors| ==> PlainName(b.interceptors[i])
    requires forall i :: 0 <= i < |b.decorators| ==> PlainName(b.decorators[i])
    ensures ReadDocument(OpenStream(b)) ==
              Some(Document(GetBeanDiscoveryMode(b), b.alternatives, b.stereotypes, b.interceptors, b.decorators))
  {
    var mode := GetBeanDiscoveryMode(b);
    var decs := Section("decorators", "class", b.decorators) + FOOTER;
    var ints := Section("interceptors", "class", b.interceptors) + decs;
    var alts := AlternativesSection(b.alternatives, b.stereotypes) + ints;
    FooterStartsNoSection();
    AfterInterceptorsDiffers(b);
    AfterAlternativesDiffers(b);
    assert ReadHeader(OpenStream(b)) == Some((mode, alts)) by {
      OpenStreamShape(b);
      HeaderRoundTrip(mode, alts);
    }
    assert ReadAlternatives(alts) == Some((b.alternatives, b.stereotypes, ints)) by {
      AlternativesRoundTrip(b.alternatives, b.stereotypes, ints);
    }
    assert ReadSection("interceptors", ints) == Some((b.interceptors, decs)) by {
      SectionRoundTrip("interceptors", b.interceptors, decs);
    }
    assert ReadSection("decorators", decs) == Some((b.decorators, FOOTER)) by {
      SectionRoundTrip("decorators", b.decorators, FOOTER);
    }
  }

  // ---- properties ----

  /** A section appears exactly when its list is non-empty; the alternatives section
      appears exactly when alternatives or stereotypes are non-empty; with all lists empty
      the document is just the header and the closing tag. */
  lemma SectionsAppearIffNonEmpty(b: BeansXml)
    ensures |Section("interceptors", "class", b.interceptors)| > 0 <==> |b.interceptors| > 0
    ensures |Section("decorators", "class", b.decorators)| > 0 <==> |b.decorators| > 0
    ensures |AlternativesSection(b.alternatives, b.stereotypes)| > 0 <==> |b.alternatives| > 0 || |b.stereotypes| > 0
    ensures b.alternatives == [] && b.stereotypes == [] && b.interceptors == [] && b.decorators == [] ==>
              OpenStream(b) == Header(GetBeanDiscoveryMode(b)) + FOOTER
  {
    if b.alternatives == [] && b.stereotypes == [] && b.interceptors == [] && b.decorators == [] {
      assert AlternativesSection(b.alternatives, b.stereotypes) == [];
      assert Section("interceptors", "class", b.interceptors) == [];
      assert Section("decorators", "class", b.decorators) == [];
      assert Header(GetBeanDiscoveryMode(b)) + ([] + [] + []) + FOOTER == Header(GetBeanDiscoveryMode(b)) + FOOTER;
    }
  }

  /** The interceptors section lists the interceptor classes, in insertion order, in a form
      that reads back to the same list. */
  lemma InterceptorsSectionReadsBack(b: BeansXml)
    requires |b.interceptors| > 0
    requires forall i :: 0 <= i < |b.interceptors| ==> PlainName(b.interceptors[i])
    ensures var s := Section("interceptors", "class", b.interceptors);
            var head := SectionOpen("interceptors");
            && StartsWith(s, head)
            && |s| >= |head| + |Close("interceptors")|
            && ParseEntries("class", s[|head|..|s| - |Close("interceptors")|]) == Some(b.interceptors)
  {
    var head := SectionOpen("interceptors");
    var s := Section("interceptors", "class", b.interceptors);
    var body := Entries("class", b.interceptors);
    assert s == head + body + Close("interceptors");
    assert s[..|head|] == head;
    assert s[|head|..|s| - |Close("interceptors")|] == body;
    EntriesRoundTrip("class", b.interceptors);
  }

  /** The SUPPRESSOR answers NONE whatever mode is set, writes a document with no section,
      and refuses every non-empty builder call. */
  lemma SuppressorIsInert(mode: BeanDiscoveryMode, k: ListKind, classes: seq<ClassName>)
    ensures GetBeanDiscoveryMode(SetBeanDiscoveryMode(SUPPRESSOR, mode)) == NONE
    ensures OpenStream(SUPPRESSOR) == "<beans version=\"1.1\" bean-discovery-mode=\"none\">\n</beans>"
    ensures |classes| > 0 ==> Append(SUPPRESSOR, k, classes) == Err(UnsupportedOperation)
  {
    assert OpenStream(SUPPRESSOR) == Header(NONE) + FOOTER by {
      SectionsAppearIffNonEmpty(SUPPRESSOR);
    }
    assert Header(NONE) + FOOTER == "<beans version=\"1.1\" bean-discovery-mode=\"none\">\n</beans>";
  }

  /** The three modes are written as three different attribute values, so the header
      tells which mode the asset was in. */
  lemma ModeValueIsInjective(m1: BeanDiscoveryMode, m2: BeanDiscoveryMode)
    ensures ModeValue(m1) == ModeValue(m2) ==> m1 == m2
    ensures Header(m1) == Header(m2) ==> m1 == m2
  {
    if Header(m1) == Header(m2) {
      var prefix := "<beans version=\"1.1\" bean-discovery-mode=\"";
      assert Header(m1)[|prefix|] == ModeValue(m1)[0];
      assert Header(m2)[|prefix|] == ModeValue(m2)[0];
    }
  }

  /** A new asset is in mode ALL and writes `bean-discovery-mode="all"`. */
  lemma NewAssetIsAll()
    ensures GetBeanDiscoveryMode(NEW) == ALL
    ensures OpenStream(NEW) == "<beans version=\"1.1\" bean-discovery-mode=\"all\">\n</beans>"
  {
    SectionsAppearIffNonEmpty(NEW);
  }
}
