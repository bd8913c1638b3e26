/**
 * The text renderer of app/renderer/text.py: the Brazilian date format, the
 * crime-type labels, the plain-text report of a submission (`render`) and the
 * ordered (label, value) view of its answers (`render_structured`).
 *
 * Both renderers append to a list inside loops, so they are methods proved
 * equal to a function on values; the report's layout is then stated by
 * reading the lines back with `Section`.
 */
module Renderer {
  import opened Wrappers
  import opened Strings
  import opened Dict
  import opened Submissions

  // ---------------------------------------------------------------------------
  // Dates

  /**
   * `_ISO_DATE_RE.match(v)` for `^\d{4}-\d{2}-\d{2}$`: ten characters of that
   * shape, where `$` also accepts one trailing newline.
   */
  predicate IsIsoDate(v: string) {
    && (|v| == 10 || (|v| == 11 && v[10] == '\n'))
    && IsDigit(v[0]) && IsDigit(v[1]) && IsDigit(v[2]) && IsDigit(v[3])
    && v[4] == '-'
    && IsDigit(v[5]) && IsDigit(v[6])
    && v[7] == '-'
    && IsDigit(v[8]) && IsDigit(v[9])
  }

  /** `_format_date_br(v)`: the parts of an ISO date, reversed and joined by `/`; any other string unchanged. */
  function FormatDateBr(v: string): string {
    if v != "" && IsIsoDate(v) then v[8..] + "/" + v[5..7] + "/" + v[..4] else v
  }

  /** A `dd/mm/yyyy` date. */
  predicate IsBrDate(b: string) {
    && |b| == 10
    && IsDigit(b[0]) && IsDigit(b[1]) && b[2] == '/'
    && IsDigit(b[3]) && IsDigit(b[4]) && b[5] == '/'
    && IsDigit(b[6]) && IsDigit(b[7]) && IsDigit(b[8]) && IsDigit(b[9])
  }

  /** The way back from `dd/mm/yyyy` to `yyyy-mm-dd`. */
  function IsoFromBr(b: string): string
    requires |b| == 10
  {
    b[6..] + "-" + b[3..5] + "-" + b[..2]
  }

  /** A ten-character ISO date becomes a `dd/mm/yyyy` date from which it can be read back. */
  lemma FormatDateBrRoundTrip(v: string)
    requires IsIsoDate(v) && |v| == 10
    ensures IsBrDate(FormatDateBr(v))
    ensures IsoFromBr(FormatDateBr(v)) == v
  {
    var r := FormatDateBr(v);
    assert r == [v[8], v[9], '/', v[5], v[6], '/', v[0], v[1], v[2], v[3]];
    assert IsoFromBr(r) == [v[0], v[1], v[2], v[3], '-', v[5], v[6], '-', v[8], v[9]];
  }

  /** Every `dd/mm/yyyy` date is the format of exactly one ISO date. */
  lemma IsoFromBrRoundTrip(b: string)
    requires IsBrDate(b)
    ensures IsIsoDate(IsoFromBr(b)) && |IsoFromBr(b)| == 10
    ensures FormatDateBr(IsoFromBr(b)) == b
  {
    var v := IsoFromBr(b);
    assert v == [b[6], b[7], b[8], b[9], '-', b[3], b[4], '-', b[0], b[1]];
    assert FormatDateBr(v) == [b[0], b[1], '/', b[3], b[4], '/', b[6], b[7], b[8], b[9]];
  }

  /** A value that is not an ISO date, the empty string included, passes through. */
  lemma FormatDateBrPassThrough(v: string)
    requires !IsIsoDate(v)
    ensures FormatDateBr(v) == v
  {
  }

  /** Formatting twice is formatting once: no output of the format is an ISO date. */
  lemma FormatDateBrIdempotent(v: string)
    ensures FormatDateBr(FormatDateBr(v)) == FormatDateBr(v)
  {
    if v != "" && IsIsoDate(v) {
      var r := FormatDateBr(v);
      assert r[2] == (if |v| == 10 then '/' else '\n');
    }
  }

  // ---------------------------------------------------------------------------
  // Crime labels

  /** `TextRenderer.CRIME_LABELS`. */
  function CrimeLabels(): map<string, string> {
    map[
    "roubo" := "Roubo",
    "furto" := "Furto",
    "estelionato" := "Estelionato",
    "lesao_corporal" := "Les\U{E3}o Corporal",
    "maria_da_penha" := "Viol\U{EA}ncia Dom\U{E9}stica / Lei Maria da Penha",
    "ameaca" := "Amea\U{E7}a",
    "dano" := "Dano ao Patrim\U{F4}nio",
    "outros" := "Outros"
    ]
  }

  /** `CRIME_LABELS.get(crime_type, crime_type)`. */
  function CrimeLabel(crimeType: string): string {
    if crimeType in CrimeLabels() then CrimeLabels()[crimeType] else crimeType
  }

  /** Known crime types get their label and an unknown crime type is shown as it is. */
  lemma CrimeLabelTable(crimeType: string)
    ensures CrimeLabel("roubo") == "Roubo" && CrimeLabel("outros") == "Outros"
    ensures CrimeLabel("lesao_corporal") == "Les\U{E3}o Corporal"
    ensures crimeType !in CrimeLabels() ==> CrimeLabel(crimeType) == crimeType
    ensures |CrimeLabels()| == 8
  {
    assert CrimeLabels().Keys == {"roubo", "furto", "estelionato", "lesao_corporal", "maria_da_penha", "ameaca", "dano", "outros"};
  }

  // ---------------------------------------------------------------------------
  // The plain-text report

  /** `submission.guest_name or '—'`. */
  function NameOrDash(name: string): string {
    if name == "" then "\U{2014}" else name
  }

  /** An answer is printed unless it is `None` or `""`. */
  predicate Shown(a: Answer) {
    a != Missing && a != Text("")
  }

  /** The value printed for an answer: strings are date-formatted, booleans print as Python's `True`/`False`. */
  function Display(a: Answer): string {
    match a
    case Text(t) => FormatDateBr(t)
    case Flag(b) => if b then "True" else "False"
    case Missing => "None"
  }

  /** The line of one answer under `DOS FATOS:`. */
  function FactLine(e: (string, Answer)): string {
    "  " + e.0 + ": " + Display(e.1)
  }

  /** The lines of the answers that are shown, in the order of the answers. */
  function FactLines(answers: Dict<Answer>): seq<string> {
    if answers == [] then []
    else
      var e := answers[|answers| - 1];
      FactLines(answers[..|answers| - 1]) + (if Shown(e.1) then [FactLine(e)] else [])
  }

  /** The identity block: the name line, then the date of birth, RG and CPF lines of the fields that are given. */
  function DetailLines(sub: Submission): seq<string> {
    ["  Nome: " + NameOrDash(sub.guestName)]
    + FieldBlock(sub.dob, "  Data de Nascimento: ", if Truthy(sub.dob) then FormatDateBr(sub.dob.value) else "")
    + FieldBlock(sub.rg, "  RG: ", if Truthy(sub.rg) then sub.rg.value else "")
    + FieldBlock(sub.cpf, "  CPF: ", if Truthy(sub.cpf) then sub.cpf.value else "")
  }

  /** The line of one optional identity field: `prefix + shown` when the field is given, nothing otherwise. */
  function FieldBlock(field: Option<string>, prefix: string, shown: string): seq<string> {
    if Truthy(field) then [prefix + shown] else []
  }

  const CrimeHeader := "TIPO DE OCORR\U{CA}NCIA: "
  const AddressHeader := "ENDERE\U{C7}O: "
  const DetailsHeader := "DADOS INFORMADOS:"
  const FactsHeader := "DOS FATOS:"
  const NarrativeHeader := "A PARTE RELATA QUE:"

  /** `ANEXOS: n foto(s)`. */
  function AttachmentsLine(sub: Submission): string {
    "ANEXOS: " + NatToString(|sub.photos|) + " foto(s)"
  }

  /** The value of an optional string when it is truthy. */
  function Given(o: Option<string>): Option<string> {
    if Truthy(o) then o else None
  }

  /** A section: its header line, its lines and the empty line that closes it. */
  function Block(header: string, body: seq<string>): seq<string> {
    [header] + body + [""]
  }

  function AddressPart(address: Option<string>): seq<string> {
    if address.Some? then [AddressHeader + address.value, ""] else []
  }

  function FactsPart(facts: Option<seq<string>>): seq<string> {
    if facts.Some? then Block(FactsHeader, facts.value) else []
  }

  function NarrativePart(narrative: Option<string>): seq<string> {
    if narrative.Some? then Block(NarrativeHeader, ["  " + narrative.value]) else []
  }

  /** Everything after the identity block. */
  function Tail(address: Option<string>, facts: Option<seq<string>>, narrative: Option<string>, last: string): seq<string> {
    AddressPart(address) + (FactsPart(facts) + (NarrativePart(narrative) + [last]))
  }

  /**
   * The section layout of the report: the crime line and an empty line, the
   * identity block, then the address, answers and narrative sections that are
   * present, each closed by an empty line, and last the photo count.
   */
  function Layout(first: string, details: seq<string>, address: Option<string>,
                  facts: Option<seq<string>>, narrative: Option<string>, last: string): seq<string>
  {
    [first, ""] + (Block(DetailsHeader, details) + Tail(address, facts, narrative, last))
  }

  /** The answers section is printed exactly when the submission has answers. */
  function Facts(sub: Submission): Option<seq<string>> {
    if sub.answers != [] then Some(FactLines(sub.answers)) else None
  }

  /** The list `lines` that `render` joins. */
  function ReportLines(sub: Submission): seq<string> {
    Layout(CrimeHeader + CrimeLabel(sub.crimeType), DetailLines(sub), Given(sub.address),
           Facts(sub), Given(sub.narrative), AttachmentsLine(sub))
  }

  lemma Assoc<T>(a: seq<T>, b: seq<T>, c: seq<T>)
    ensures a + b + c == a + (b + c)
  {
  }

  /** Appending the five parts one after the other gives the right-nested layout. */
  lemma Regroup(p: seq<string>, b: seq<string>, a: seq<string>, f: seq<string>, n: seq<string>, e: seq<string>)
    ensures p + b + a + f + n + e == p + (b + (a + (f + (n + e))))
  {
    Assoc(p + b + a, f, n);
    Assoc(p + b + a, f + n, e);
    Assoc(f, n, e);
    Assoc(p + b, a, f + n + e);
    Assoc(a, f, n + e);
    Assoc(p, b, a + (f + (n + e)));
  }

  /** The loop over `submission.answers.items()`: appends the line of every answer that is shown. */
  method AppendFacts(lines: seq<string>, answers: Dict<Answer>) returns (r: seq<string>)
    ensures r == lines + FactLines(answers)
  {
    r := lines;
    for i := 0 to |answers|
      invariant r == lines + FactLines(answers[..i])
    {
      var prefix := answers[..i + 1];
      assert prefix[..i] == answers[..i] && prefix[i] == answers[i];
      var (key, val) := answers[i];
      if val != Missing && val != Text("") {
        r := r + ["  " + key + ": " + Display(val)];
      }
    }
    assert answers[..|answers|] == answers;
  }

  /** Lines 34-42 of `render`: the identity block and the empty line after it. */
  method AppendIdentity(lines: seq<string>, sub: Submission) returns (r: seq<string>)
    ensures r == lines + Block(DetailsHeader, DetailLines(sub))
  {
    r := lines + [DetailsHeader, "  Nome: " + NameOrDash(sub.guestName)];
    if Truthy(sub.dob) {
      r := r + ["  Data de Nascimento: " + FormatDateBr(sub.dob.value)];
    }
    if Truthy(sub.rg) {
      r := r + ["  RG: " + sub.rg.value];
    }
    if Truthy(sub.cpf) {
      r := r + ["  CPF: " + sub.cpf.value];
    }
    r := r + [""];
  }

  /** Lines 44-46 of `render`: the address line and an empty line, when an address is given. */
  method AppendAddress(lines: seq<string>, sub: Submission) returns (r: seq<string>)
    ensures r == lines + AddressPart(Given(sub.address))
  {
    r := lines;
    if Truthy(sub.address) {
      r := r + [AddressHeader + sub.address.value, ""];
    }
  }

  /** Lines 48-54 of `render`: the answers section, when there are answers. */
  method AppendAnswers(lines: seq<string>, sub: Submission) returns (r: seq<string>)
    ensures r == lines + FactsPart(Facts(sub))
  {
    r := lines;
    if sub.answers != [] {
      r := r + [FactsHeader];
      r := AppendFacts(r, sub.answers);
      r := r + [""];
    }
  }

  /** Lines 56-59 of `render`: the narrative section, when a narrative is given. */
  method AppendNarrative(lines: seq<string>, sub: Submission) returns (r: seq<string>)
    ensures r == lines + NarrativePart(Given(sub.narrative))
  {
    r := lines;
    if Truthy(sub.narrative) {
      r := r + [NarrativeHeader, "  " + sub.narrative.value, ""];
    }
  }

  /** `TextRenderer.render(submission)`. */
  method Render(sub: Submission) returns (text: string)
    ensures text == JoinLines(ReportLines(sub))
    ensures |text| >= |AttachmentsLine(sub)| && text[|text| - |AttachmentsLine(sub)|..] == AttachmentsLine(sub)
  {
    var lines := [CrimeHeader + CrimeLabel(sub.crimeType), ""];
    ghost var p := lines;
    lines := AppendIdentity(lines, sub);
    ghost var b := Block(DetailsHeader, DetailLines(sub));
    lines := AppendAddress(lines, sub);
    lines := AppendAnswers(lines, sub);
    lines := AppendNarrative(lines, sub);
    lines := lines + [AttachmentsLine(sub)];
    Regroup(p, b, AddressPart(Given(sub.address)), FactsPart(Facts(sub)), NarrativePart(Given(sub.narrative)), [AttachmentsLine(sub)]);
    text := JoinLines(lines);
  }

  // ---------------------------------------------------------------------------
  // Reading the report back

  /** The lines up to, and not including, the first empty line. */
  function UntilBlank(ls: seq<string>): seq<string> {
    if ls == [] || ls[0] == "" then [] else [ls[0]] + UntilBlank(ls[1..])
  }

  /** The block of lines under the first line equal to `header`, or `None` when no line is. */
  function Section(ls: seq<string>, header: string): Option<seq<string>> {
    if ls == [] then None
    else if ls[0] == header then Some(UntilBlank(ls[1..]))
    else Section(ls[1..], header)
  }

  lemma {:induction false} UntilBlankStops(body: seq<string>, rest: seq<string>)
    requires "" !in body
    ensures UntilBlank(body + [""] + rest) == body
  {
    if body != [] {
      assert (body + [""] + rest)[1..] == body[1..] + [""] + rest;
      UntilBlankStops(body[1..], rest);
    } else {
      assert (body + [""] + rest)[0] == "";
    }
  }

  /** Lines before the first `header` line do not change what is read under it. */
  lemma {:induction false} SectionSkips(pre: seq<string>, rest: seq<string>, header: string)
    requires header !in pre
    ensures Section(pre + rest, header) == Section(rest, header)
  {
    if pre == [] {
      assert pre + rest == rest;
    } else {
      assert (pre + rest)[1..] == pre[1..] + rest;
      SectionSkips(pre[1..], rest, header);
    }
  }

  /** A section without empty lines reads back as its lines, whatever follows it. */
  lemma SectionBlock(header: string, body: seq<string>, rest: seq<string>)
    requires "" !in body
    ensures Section(Block(header, body) + rest, header) == Some(body)
  {
    var ls := Block(header, body) + rest;
    assert ls[0] == header;
    assert ls[1..] == body + [""] + rest;
    UntilBlankStops(body, rest);
  }

  /** A header on no line has no section. */
  lemma SectionMissing(ls: seq<string>, header: string)
    requires header !in ls
    ensures Section(ls, header) == None
  {
    SectionSkips(ls, [], header);
    assert ls + [] == ls;
  }

  /** Every line is non-empty and starts with a space. */
  predicate Indented(ls: seq<string>) {
    forall l :: l in ls ==> |l| > 0 && l[0] == ' '
  }

  /** Every answer line is indented. */
  lemma {:induction false} FactLinesIndented(answers: Dict<Answer>)
    ensures Indented(FactLines(answers))
  {
    if answers != [] {
      FactLinesIndented(answers[..|answers| - 1]);
    }
  }

  /** What the layout needs of its lines: none can be mistaken for a header or an empty line. */
  predicate LayoutReady(first: string, details: seq<string>, facts: Option<seq<string>>, last: string) {
    && |first| > 0 && first[0] == 'T'
    && Indented(details)
    && (facts.Some? ==> Indented(facts.value))
    && |last| > 1 && last[0] == 'A' && last[1] == 'N'
  }

  /** The headers that a line of the layout can be told apart from. */
  lemma HeadersDiffer()
    ensures DetailsHeader[0] == 'D' && FactsHeader[0] == 'D' && NarrativeHeader[0] == 'A' && AddressHeader[0] == 'E'
    ensures NarrativeHeader[1] == ' '
    ensures DetailsHeader != FactsHeader && FactsHeader != NarrativeHeader
  {
    assert DetailsHeader[1] != FactsHeader[1];
  }

  /** The layout's first and last lines and its identity block. */
  lemma LayoutFrame(first: string, details: seq<string>, address: Option<string>,
                    facts: Option<seq<string>>, narrative: Option<string>, last: string)
    requires LayoutReady(first, details, facts, last)
    ensures var l := Layout(first, details, address, facts, narrative, last);
      && l[0] == first && l[|l| - 1] == last
      && Section(l, DetailsHeader) == Some(details)
  {
    HeadersDiffer();
    var tail := Tail(address, facts, narrative, last);
    assert tail[|tail| - 1] == last;
    SectionSkips([first, ""], Block(DetailsHeader, details) + tail, DetailsHeader);
    SectionBlock(DetailsHeader, details, tail);
  }

  /** The tail's answers section is `facts`. */
  lemma TailFacts(address: Option<string>, facts: Option<seq<string>>, narrative: Option<string>, last: string)
    requires facts.Some? ==> Indented(facts.value)
    requires |last| > 0 && last[0] == 'A'
    ensures Section(Tail(address, facts, narrative, last), FactsHeader) == facts
  {
    HeadersDiffer();
    var after := NarrativePart(narrative) + [last];
    if address.Some? {
      assert (AddressHeader + address.value)[0] == 'E';
    }
    SectionSkips(AddressPart(address), FactsPart(facts) + after, FactsHeader);
    if facts.Some? {
      SectionBlock(FactsHeader, facts.value, after);
    } else {
      assert FactsPart(facts) + after == after;
      if narrative.Some? {
        assert ("  " + narrative.value)[0] == ' ';
      }
      SectionMissing(after, FactsHeader);
    }
  }

  /** The layout's answers section is `facts`: it is there exactly when `facts` is given, and holds its lines. */
  lemma LayoutFacts(first: string, details: seq<string>, address: Option<string>,
                    facts: Option<seq<string>>, narrative: Option<string>, last: string)
    requires LayoutReady(first, details, facts, last)
    ensures Section(Layout(first, details, address, facts, narrative, last), FactsHeader) == facts
  {
    HeadersDiffer();
    var tail := Tail(address, facts, narrative, last);
    SectionSkips([first, ""], Block(DetailsHeader, details) + tail, FactsHeader);
    SectionSkips(Block(DetailsHeader, details), tail, FactsHeader);
    TailFacts(address, facts, narrative, last);
  }

  /** The tail's narrative section is the indented narrative. */
  lemma TailNarrative(address: Option<string>, facts: Option<seq<string>>, narrative: Option<string>, last: string)
    requires facts.Some? ==> Indented(facts.value)
    requires |last| > 1 && last[1] == 'N'
    ensures Section(Tail(address, facts, narrative, last), NarrativeHeader) ==
      if narrative.Some? then Some(["  " + narrative.value]) else None
  {
    HeadersDiffer();
    var after := NarrativePart(narrative) + [last];
    if address.Some? {
      assert (AddressHeader + address.value)[0] == 'E';
    }
    SectionSkips(AddressPart(address), FactsPart(facts) + after, NarrativeHeader);
    SectionSkips(FactsPart(facts), after, NarrativeHeader);
    if narrative.Some? {
      SectionBlock(NarrativeHeader, ["  " + narrative.value], [last]);
    } else {
      assert after == [last];
      SectionMissing(after, NarrativeHeader);
    }
  }

  /** The layout's narrative section is there exactly when a narrative is given, and holds it indented by two spaces. */
  lemma LayoutNarrative(first: string, details: seq<string>, address: Option<string>,
                        facts: Option<seq<string>>, narrative: Option<string>, last: string)
    requires LayoutReady(first, details, facts, last)
    ensures Section(Layout(first, details, address, facts, narrative, last), NarrativeHeader) ==
      if narrative.Some? then Some(["  " + narrative.value]) else None
  {
    HeadersDiffer();
    var tail := Tail(address, facts, narrative, last);
    SectionSkips([first, ""], Block(DetailsHeader, details) + tail, NarrativeHeader);
    SectionSkips(Block(DetailsHeader, details), tail, NarrativeHeader);
    TailNarrative(address, facts, narrative, last);
  }

  /** A line starts with the prefix `p` (Python's `l.startswith(p)`). */
  predicate StartsWith(l: string, p: string) {
    |p| <= |l| && l[..|p|] == p
  }

  /** Outside the address line, no line of the layout starts with `E`. */
  lemma LayoutNoE(first: string, details: seq<string>, address: Option<string>,
                  facts: Option<seq<string>>, narrative: Option<string>, last: string)
    requires LayoutReady(first, details, facts, last)
    ensures forall l :: l in [first, ""] + Block(DetailsHeader, details) ==> l == [] || l[0] != 'E'
    ensures forall l :: l in FactsPart(facts) + (NarrativePart(narrative) + [last]) ==> l == [] || l[0] != 'E'
  {
    HeadersDiffer();
    if narrative.Some? {
      assert ("  " + narrative.value)[0] == ' ';
    }
  }

  /** The `ENDEREÇO:` line is in the layout exactly when an address is given, and then shows it. */
  lemma LayoutAddress(first: string, details: seq<string>, address: Option<string>,
                      facts: Option<seq<string>>, narrative: Option<string>, last: string)
    requires LayoutReady(first, details, facts, last)
    ensures address.Some? <==> exists l :: l in Layout(first, details, address, facts, narrative, last) && StartsWith(l, AddressHeader)
    ensures address.Some? ==> AddressHeader + address.value in Layout(first, details, address, facts, narrative, last)
  {
    HeadersDiffer();
    LayoutNoE(first, details, address, facts, narrative, last);
    var L := Layout(first, details, address, facts, narrative, last);
    var front := [first, ""] + Block(DetailsHeader, details);
    var back := FactsPart(facts) + (NarrativePart(narrative) + [last]);
    assert L == front + (AddressPart(address) + back) by {
      Assoc([first, ""], Block(DetailsHeader, details), AddressPart(address) + back);
    }
    if address.Some? {
      var line := AddressHeader + address.value;
      assert line[..|AddressHeader|] == AddressHeader;
      assert line in AddressPart(address);
      assert StartsWith(line, AddressHeader);
    } else {
      forall l | l in L ensures !StartsWith(l, AddressHeader) {
        assert l in front || l in back;
      }
    }
  }

  /** Every identity line is indented. */
  lemma DetailLinesIndented(sub: Submission)
    ensures Indented(DetailLines(sub))
  {
  }

  lemma CrimeLineLead(sub: Submission)
    ensures |CrimeHeader + CrimeLabel(sub.crimeType)| > 0 && (CrimeHeader + CrimeLabel(sub.crimeType))[0] == 'T'
  {
  }

  lemma AttachmentsLineLead(sub: Submission)
    ensures |AttachmentsLine(sub)| > 1 && AttachmentsLine(sub)[0] == 'A' && AttachmentsLine(sub)[1] == 'N'
  {
  }

  /** The report satisfies what the layout needs. */
  lemma ReportReady(sub: Submission)
    ensures LayoutReady(CrimeHeader + CrimeLabel(sub.crimeType), DetailLines(sub), Facts(sub), AttachmentsLine(sub))
  {
    CrimeLineLead(sub);
    DetailLinesIndented(sub);
    FactLinesIndented(sub.answers);
    AttachmentsLineLead(sub);
  }

  /**
   * What `render` prints: the crime line first, the photo count last, the
   * identity block under `DADOS INFORMADOS:`, the `DOS FATOS:` section exactly
   * when `answers` is non-empty (with one line per answer shown), the narrative
   * section exactly when a narrative is given, and the address line exactly when
   * an address is given.
   */
  lemma ReportSections(sub: Submission)
    ensures ReportLines(sub)[0] == CrimeHeader + CrimeLabel(sub.crimeType)
    ensures ReportLines(sub)[|ReportLines(sub)| - 1] == AttachmentsLine(sub)
    ensures Section(ReportLines(sub), DetailsHeader) == Some(DetailLines(sub))
    ensures Section(ReportLines(sub), FactsHeader) == if sub.answers != [] then Some(FactLines(sub.answers)) else None
    ensures Section(ReportLines(sub), NarrativeHeader) ==
      if Truthy(sub.narrative) then Some(["  " + sub.narrative.value]) else None
    ensures Truthy(sub.address) <==> exists l :: l in ReportLines(sub) && StartsWith(l, AddressHeader)
    ensures Truthy(sub.address) ==> AddressHeader + sub.address.value in ReportLines(sub)
  {
    var first := CrimeHeader + CrimeLabel(sub.crimeType);
    ReportReady(sub);
    LayoutFrame(first, DetailLines(sub), Given(sub.address), Facts(sub), Given(sub.narrative), AttachmentsLine(sub));
    LayoutFacts(first, DetailLines(sub), Given(sub.address), Facts(sub), Given(sub.narrative), AttachmentsLine(sub));
    LayoutNarrative(first, DetailLines(sub), Given(sub.address), Facts(sub), Given(sub.narrative), AttachmentsLine(sub));
    LayoutAddress(first, DetailLines(sub), Given(sub.address), Facts(sub), Given(sub.narrative), AttachmentsLine(sub));
  }

  /**
   * The name line comes first in the identity block, and the date of birth, RG
   * and CPF lines are there exactly when the field is given, showing its value
   * (the date of birth date-formatted).
   */
  lemma DetailFields(sub: Submission)
    ensures DetailLines(sub)[0] == "  Nome: " + NameOrDash(sub.guestName)
    ensures Truthy(sub.dob) <==> exists l :: l in DetailLines(sub) && StartsWith(l, "  Data de Nascimento: ")
    ensures Truthy(sub.rg) <==> exists l :: l in DetailLines(sub) && StartsWith(l, "  RG: ")
    ensures Truthy(sub.cpf) <==> exists l :: l in DetailLines(sub) && StartsWith(l, "  CPF: ")
    ensures Truthy(sub.dob) ==> "  Data de Nascimento: " + FormatDateBr(sub.dob.value) in DetailLines(sub)
    ensures Truthy(sub.rg) ==> "  RG: " + sub.rg.value in DetailLines(sub)
    ensures Truthy(sub.cpf) ==> "  CPF: " + sub.cpf.value in DetailLines(sub)
  {
    var name := "  Nome: " + NameOrDash(sub.guestName);
    var dob := FieldBlock(sub.dob, "  Data de Nascimento: ", if Truthy(sub.dob) then FormatDateBr(sub.dob.value) else "");
    var rg := FieldBlock(sub.rg, "  RG: ", if Truthy(sub.rg) then sub.rg.value else "");
    var cpf := FieldBlock(sub.cpf, "  CPF: ", if Truthy(sub.cpf) then sub.cpf.value else "");
    assert name[2] == 'N';
    assert "  Data de Nascimento: "[2] == 'D' && "  RG: "[2] == 'R' && "  CPF: "[2] == 'C';
    FieldBlockLines(sub.dob, "  Data de Nascimento: ", if Truthy(sub.dob) then FormatDateBr(sub.dob.value) else "");
    FieldBlockLines(sub.rg, "  RG: ", if Truthy(sub.rg) then sub.rg.value else "");
    FieldBlockLines(sub.cpf, "  CPF: ", if Truthy(sub.cpf) then sub.cpf.value else "");
  }

  /** The field's line is there exactly when the field is given, and starts with its prefix. */
  lemma FieldBlockLines(field: Option<string>, prefix: string, shown: string)
    requires |prefix| >= 3
    ensures forall l :: l in FieldBlock(field, prefix, shown) ==> l[2] == prefix[2] && StartsWith(l, prefix)
    ensures Truthy(field) <==> prefix + shown in FieldBlock(field, prefix, shown)
  {
    if Truthy(field) {
      assert (prefix + shown)[..|prefix|] == prefix;
    }
  }

  /** The answer lines are the shown answers, in order, each as `  key: value`; every answer not shown is skipped. */
  lemma {:induction false} FactLinesPicks(answers: Dict<Answer>) returns (idx: seq<nat>)
    ensures |idx| == |FactLines(answers)|
    ensures forall i :: 0 <= i < |idx| ==>
      idx[i] < |answers| && Shown(answers[idx[i]].1) && FactLines(answers)[i] == FactLine(answers[idx[i]])
    ensures forall i, j :: 0 <= i < j < |idx| ==> idx[i] < idx[j]
    ensures forall j :: 0 <= j < |answers| && Shown(answers[j].1) ==> j in idx
  {
    if answers == [] {
      idx := [];
    } else {
      var init := answers[..|answers| - 1];
      var prev := FactLinesPicks(init);
      var n := |answers| - 1;
      if Shown(answers[n].1) {
        idx := prev + [n];
      } else {
        idx := prev;
      }
    }
  }

  // ---------------------------------------------------------------------------
  // The structured view

  /** `{q["id"]: q["label"] for q in questions}`: ids in the order of their first occurrence, each with its last label. */
  function QMap(questions: seq<Question>): Dict<string> {
    if questions == [] then []
    else
      var q := questions[|questions| - 1];
      Put(QMap(questions[..|questions| - 1]), q.id, q.caption)
  }

  /** The label of the last question with id `id`. */
  function LastCaption(questions: seq<Question>, id: string): Option<string> {
    if questions == [] then None
    else if questions[|questions| - 1].id == id then Some(questions[|questions| - 1].caption)
    else LastCaption(questions[..|questions| - 1], id)
  }

  /** The keys of `q_map` are the distinct question ids in schema order, and each maps to the last label given for it. */
  lemma {:induction false} QMapShape(questions: seq<Question>, id: string)
    ensures Keys(QMap(questions)) == Unique(Ids(questions))
    ensures Get(QMap(questions), id) == LastCaption(questions, id)
  {
    if questions != [] {
      var init := questions[..|questions| - 1];
      var q := questions[|questions| - 1];
      QMapShape(init, id);
      PutKeys(QMap(init), q.id, q.caption);
      PutGet(QMap(init), q.id, q.caption, id);
      assert Ids(questions)[..|questions| - 1] == Ids(init);
    }
  }

  /** The value shown for an answer in the structured view: `Sim`/`Não` for booleans, date-formatted otherwise. */
  function StructuredValue(a: Answer): string {
    match a
    case Flag(b) => if b then "Sim" else "N\U{E3}o"
    case Text(t) => FormatDateBr(t)
    case Missing => "None"
  }

  /** The entry of one `q_map` item, when its answer is shown. */
  function Entry(e: (string, string), answers: Dict<Answer>): seq<(string, string)> {
    var a := Get(answers, e.0);
    if a.Some? && Shown(a.value) then [(e.1, StructuredValue(a.value))] else []
  }

  /** The list `render_structured` returns for the items of `qm`. */
  function Structured(qm: Dict<string>, answers: Dict<Answer>): seq<(string, string)> {
    if qm == [] then []
    else Structured(qm[..|qm| - 1], answers) + Entry(qm[|qm| - 1], answers)
  }

  /** `TextRenderer.render_structured(submission, questions)`. */
  method RenderStructured(sub: Submission, questions: seq<Question>) returns (result: seq<(string, string)>)
    ensures result == Structured(QMap(questions), sub.answers)
  {
    var qMap: Dict<string> := [];
    for i := 0 to |questions|
      invariant qMap == QMap(questions[..i])
    {
      assert questions[..i + 1][..i] == questions[..i];
      qMap := Put(qMap, questions[i].id, questions[i].caption);
    }
    assert questions[..|questions|] == questions;
    result := [];
    for i := 0 to |qMap|
      invariant result == Structured(qMap[..i], sub.answers)
    {
      assert qMap[..i + 1][..i] == qMap[..i];
      var (qid, caption) := qMap[i];
      var val := Get(sub.answers, qid);
      if val.None? || val.value == Missing || val.value == Text("") {
        continue;
      }
      var shown := match val.value
        case Flag(b) => if b then "Sim" else "N\U{E3}o"
        case Text(t) => FormatDateBr(t)
        case Missing => "None";
      result := result + [(caption, shown)];
    }
    assert qMap[..|qMap|] == qMap;
  }

  /** An item contributes an entry exactly when its answer is shown, and the entry is (label, value). */
  lemma EntryShape(e: (string, string), answers: Dict<Answer>)
    ensures Entry(e, answers) != [] <==> Get(answers, e.0).Some? && Shown(Get(answers, e.0).value)
    ensures Entry(e, answers) != [] ==> Entry(e, answers) == [(e.1, StructuredValue(Get(answers, e.0).value))]
  {
  }

  /** The positions of the items of `qm` that contribute an entry, in order. */
  function ShownItems(qm: Dict<string>, answers: Dict<Answer>): seq<nat> {
    if qm == [] then []
    else ShownItems(qm[..|qm| - 1], answers) + (if Entry(qm[|qm| - 1], answers) != [] then [|qm| - 1] else [])
  }

  /** The positions are positions of `qm`, strictly increasing. */
  lemma {:induction false} ShownItemsIncreasing(qm: Dict<string>, answers: Dict<Answer>)
    ensures forall i :: 0 <= i < |ShownItems(qm, answers)| ==> ShownItems(qm, answers)[i] < |qm|
    ensures forall i, j :: 0 <= i < j < |ShownItems(qm, answers)| ==> ShownItems(qm, answers)[i] < ShownItems(qm, answers)[j]
  {
    if qm != [] {
      ShownItemsIncreasing(qm[..|qm| - 1], answers);
    }
  }

  /** Every item that contributes an entry is among the positions. */
  lemma {:induction false} ShownItemsCover(qm: Dict<string>, answers: Dict<Answer>)
    ensures forall j :: 0 <= j < |qm| && Entry(qm[j], answers) != [] ==> j in ShownItems(qm, answers)
  {
    if qm != [] {
      var init := qm[..|qm| - 1];
      ShownItemsCover(init, answers);
      assert forall j :: 0 <= j < |init| ==> init[j] == qm[j];
    }
  }

  /**
   * The structured view follows `q_map`: its i-th entry is the entry of the
   * i-th item that contributes one (see `EntryShape`, `ShownItemsIncreasing`
   * and `ShownItemsCover`); every other item is skipped.
   */
  lemma {:induction false} StructuredPicks(qm: Dict<string>, answers: Dict<Answer>)
    ensures |ShownItems(qm, answers)| == |Structured(qm, answers)|
    ensures forall i :: 0 <= i < |Structured(qm, answers)| ==>
      ShownItems(qm, answers)[i] < |qm| && Entry(qm[ShownItems(qm, answers)[i]], answers) == [Structured(qm, answers)[i]]
  {
    if qm != [] {
      var n := |qm| - 1;
      var init := qm[..n];
      StructuredPicks(init, answers);
      ShownItemsIncreasing(init, answers);
      var e := Entry(qm[n], answers);
      assert |e| <= 1;
      var idx := ShownItems(qm, answers);
      var s := Structured(qm, answers);
      assert s == Structured(init, answers) + e;
      assert idx == ShownItems(init, answers) + (if e != [] then [n] else []);
      forall i | 0 <= i < |s|
        ensures idx[i] < |qm| && Entry(qm[idx[i]], answers) == [s[i]]
      {
        if i < |Structured(init, answers)| {
          assert s[i] == Structured(init, answers)[i];
          assert qm[idx[i]] == init[ShownItems(init, answers)[i]];
        }
      }
    }
  }

  /** The distinct ids of a schema are the ids of its questions. */
  lemma UniqueIdsSet(questions: seq<Question>)
    ensures (set x | x in Unique(Ids(questions))) == set q | q in questions :: q.id
  {
    var ids := Ids(questions);
    forall x | x in Unique(ids) ensures exists q :: q in questions && q.id == x {
      var i :| 0 <= i < |ids| && ids[i] == x;
      assert questions[i] in questions;
    }
    forall q | q in questions ensures q.id in Unique(ids) {
      var i :| 0 <= i < |questions| && questions[i] == q;
      assert ids[i] == q.id;
    }
  }

  /** The structured view has at most one entry per distinct question id of the schema. */
  lemma StructuredBound(sub: Submission, questions: seq<Question>)
    ensures |Structured(QMap(questions), sub.answers)| <= |set q | q in questions :: q.id|
  {
    var qm := QMap(questions);
    StructuredPicks(qm, sub.answers);
    ShownItemsIncreasing(qm, sub.answers);
    IncreasingBound(ShownItems(qm, sub.answers), |qm|);
    QMapShape(questions, "");
    assert |qm| == |Unique(Ids(questions))|;
    DistinctCardinality(Unique(Ids(questions)));
    UniqueIdsSet(questions);
  }

  /** A strictly increasing sequence of indices below `n` has at most `n` elements. */
  lemma {:induction false} IncreasingBound(idx: seq<nat>, n: nat)
    requires forall i :: 0 <= i < |idx| ==> idx[i] < n
    requires forall i, j :: 0 <= i < j < |idx| ==> idx[i] < idx[j]
    ensures |idx| <= n
  {
    if idx != [] {
      var last := idx[|idx| - 1];
      IncreasingBound(idx[..|idx| - 1], last);
    }
  }
}
