/** The plain-text summary `handleSend` composes from the analysis the
    model returns, and the shape of that analysis as the summary reads it. */
module Summary {
  import opened JsString
  import opened Nullable

  /** `inferred_intent`. `confidencePercent` is the rendered text of
      `(confidence * 100).toFixed(0)`. */
  datatype Intent = Intent(labelText: string, confidencePercent: string)

  datatype Conflict = Conflict(ingredient: string, riskLevel: string, whyItMatters: string)

  datatype Tradeoff = Tradeoff(ingredient: string, explanation: string)

  /** The parsed model reply. A field the summary dereferences (`.label`,
      `.length`) may be missing, which makes the composition throw; the
      text fields are the strings the template interpolates. */
  datatype Analysis = Analysis(
    inferredIntent: Option<Intent>,
    primaryConflicts: Option<seq<Conflict>>,
    secondaryTradeoffs: Option<seq<Tradeoff>>,
    overallAssessment: string,
    uncertaintyNotes: Option<seq<string>>)

  /** The separator between bullets: a line break and a bullet sign. */
  const Bullet: string := "\n\U{2022} "

  /** A bulleted section: nothing for an empty list, otherwise `lead`, the
      title and a colon, then one bullet per entry. */
  function Section(lead: string, title: string, entries: seq<string>): (r: string)
    ensures r == "" <==> entries == []
  {
    if entries == [] then "" else lead + title + ":" + Bullet + Join(entries, Bullet)
  }

  function Frictions(whys: seq<string>): string {
    Section("", "Alignment frictions", whys)
  }

  function Tradeoffs(explanations: seq<string>): string {
    Section("\n", "Tradeoffs", explanations)
  }

  function Uncertainty(notes: seq<string>): string {
    Section("\n", "Uncertainty", notes)
  }

  /** The first two lines of the summary. */
  function Header(intent: Intent): (h: string)
    ensures h != [] && h[0] == 'I' && h[|h| - 1] == '%' && IsTrimmed(h)
  {
    var h := "Inferred intent: " + intent.labelText + "\nConfidence: " + intent.confidencePercent + "%";
    assert h[0] == 'I' && h[|h| - 1] == '%';
    h
  }

  /** Everything the template puts after the header. */
  function Body(overall: string, whys: seq<string>, explanations: seq<string>, notes: seq<string>): string {
    "\n\n" + overall + "\n\n" + Frictions(whys) + AfterFrictions(explanations, notes)
  }

  function AfterFrictions(explanations: seq<string>, notes: seq<string>): string {
    "\n\n" + Tradeoffs(explanations) + AfterTradeoffs(notes)
  }

  function AfterTradeoffs(notes: seq<string>): string {
    "\n\n" + Uncertainty(notes) + "\n"
  }

  function WhyItMatters(cs: seq<Conflict>): seq<string> {
    seq(|cs|, i requires 0 <= i < |cs| => cs[i].whyItMatters)
  }

  function Explanations(ts: seq<Tradeoff>): seq<string> {
    seq(|ts|, i requires 0 <= i < |ts| => ts[i].explanation)
  }

  /** All fields the template dereferences are present. */
  predicate Complete(a: Analysis) {
    a.inferredIntent.Some? && a.primaryConflicts.Some? && a.secondaryTradeoffs.Some?
    && a.uncertaintyNotes.Some?
  }

  /** The summary template with `.trim()` applied; `None` when evaluating
      the template throws. */
  function Compose(a: Analysis): (r: Option<string>)
    ensures r.Some? <==> Complete(a)
    ensures r.Some? ==> IsTrimmed(r.value)
    ensures r.Some? ==> |Header(a.inferredIntent.value)| <= |r.value|
                        && r.value[..|Header(a.inferredIntent.value)|] == Header(a.inferredIntent.value)
  {
    match (a.inferredIntent, a.primaryConflicts, a.secondaryTradeoffs, a.uncertaintyNotes)
    case (Some(intent), Some(cs), Some(ts), Some(notes)) =>
      var body := Body(a.overallAssessment, WhyItMatters(cs), Explanations(ts), notes);
      TrimAroundHead("\n", Header(intent), body);
      Some(Trim("\n" + Header(intent) + body))
    case _ => None
  }

  /** The whole summary: the header kept whole, then the rest of the
      template with only its trailing whitespace dropped. */
  lemma SummaryShape(a: Analysis)
    requires Complete(a)
    ensures Compose(a) == Some(Header(a.inferredIntent.value) + TrimEnd(
              Body(a.overallAssessment, WhyItMatters(a.primaryConflicts.value),
                   Explanations(a.secondaryTradeoffs.value), a.uncertaintyNotes.value)))
  {
    var body := Body(a.overallAssessment, WhyItMatters(a.primaryConflicts.value),
                     Explanations(a.secondaryTradeoffs.value), a.uncertaintyNotes.value);
    TrimAroundHead("\n", Header(a.inferredIntent.value), body);
  }

  /** Each entry on a line of its own behind a bullet sign, in list order. */
  function BulletLines(entries: seq<string>): seq<string> {
    seq(|entries|, i requires 0 <= i < |entries| => "\U{2022} " + entries[i])
  }

  lemma {:induction false} JoinBulletLines(entries: seq<string>)
    requires entries != []
    ensures Join(BulletLines(entries), "\n") == "\U{2022} " + Join(entries, Bullet)
    decreases |entries|
  {
    if |entries| > 1 {
      JoinBulletLines(entries[1..]);
      assert BulletLines(entries)[1..] == BulletLines(entries[1..]);
    }
  }

  /** A non-empty section is its title line followed by one bullet line per
      entry, in the entries' order. */
  lemma SectionLines(lead: string, title: string, entries: seq<string>)
    requires entries != []
    ensures Section(lead, title, entries)
            == lead + Join([title + ":"] + BulletLines(entries), "\n")
  {
    JoinBulletLines(entries);
    var lines := [title + ":"] + BulletLines(entries);
    assert lines[1..] == BulletLines(entries);
  }

  /** With all three lists empty the summary is the header and the trimmed
      overall assessment, and no section appears. */
  lemma NoSectionsWhenListsEmpty(a: Analysis)
    requires Complete(a)
    requires a.primaryConflicts.value == [] && a.secondaryTradeoffs.value == []
    requires a.uncertaintyNotes.value == []
    ensures Compose(a) == Some(Header(a.inferredIntent.value) + TrimEnd("\n\n" + a.overallAssessment))
  {
    SummaryShape(a);
    var tail := "\n\n" + "" + "\n\n" + "" + "\n\n" + "" + "\n";
    assert AllWhitespace(tail);
    assert Body(a.overallAssessment, [], [], []) == ("\n\n" + a.overallAssessment) + tail;
    TrimEndOfWhitespaceTail("\n\n" + a.overallAssessment, tail);
  }

  /** A prefix of the body that ends in a visible character survives the
      trim, right behind the header. */
  lemma BodyPrefixSurvives(a: Analysis, p: string, rest: string)
    requires Complete(a)
    requires Body(a.overallAssessment, WhyItMatters(a.primaryConflicts.value),
                  Explanations(a.secondaryTradeoffs.value), a.uncertaintyNotes.value) == p + rest
    requires p != [] && !IsWhitespace(p[|p| - 1])
    ensures Compose(a).Some?
    ensures var s := Compose(a).value;
            var h := Header(a.inferredIntent.value) + p;
            |h| <= |s| && s[..|h|] == h
  {
    SummaryShape(a);
    TrimEndKeepsPrefix(p, rest);
    var h := Header(a.inferredIntent.value);
    assert Compose(a).value == h + (p + TrimEnd(rest));
    assert (h + (p + TrimEnd(rest)))[..|h + p|] == h + p;
  }

  /** The text after the header up to the first bullet of the frictions
      section. */
  function FrictionsLead(overall: string): string {
    "\n\n" + overall + "\n\nAlignment frictions:\n\U{2022}"
  }

  lemma BodyAtFrictions(overall: string, whys: seq<string>, explanations: seq<string>, notes: seq<string>)
    requires whys != []
    ensures Body(overall, whys, explanations, notes)
            == FrictionsLead(overall) + (" " + Join(whys, Bullet) + AfterFrictions(explanations, notes))
  {
    var x := "\n\n" + overall + "\n\n";
    var heading := "Alignment frictions:\n\U{2022}";
    var j := " " + Join(whys, Bullet);
    assert Frictions(whys) == heading + j;
    assert FrictionsLead(overall) == x + heading;
  }

  /** A non-empty `primary_conflicts` list puts the frictions heading and
      its first bullet sign right after the overall assessment. */
  lemma FrictionsAppear(a: Analysis)
    requires Complete(a) && a.primaryConflicts.value != []
    ensures Compose(a).Some?
    ensures var s := Compose(a).value;
            var h := Header(a.inferredIntent.value) + FrictionsLead(a.overallAssessment);
            |h| <= |s| && s[..|h|] == h
  {
    var whys := WhyItMatters(a.primaryConflicts.value);
    var expl := Explanations(a.secondaryTradeoffs.value);
    var notes := a.uncertaintyNotes.value;
    BodyAtFrictions(a.overallAssessment, whys, expl, notes);
    var p := FrictionsLead(a.overallAssessment);
    assert p[|p| - 1] == '\U{2022}';
    BodyPrefixSurvives(a, p, " " + Join(whys, Bullet) + AfterFrictions(expl, notes));
  }

  /** The text after the header up to the first bullet of the tradeoffs
      section. */
  function TradeoffsLead(overall: string, whys: seq<string>): string {
    "\n\n" + overall + "\n\n" + Frictions(whys) + "\n\n\nTradeoffs:\n\U{2022}"
  }

  lemma BodyAtTradeoffs(overall: string, whys: seq<string>, explanations: seq<string>, notes: seq<string>)
    requires explanations != []
    ensures Body(overall, whys, explanations, notes)
            == TradeoffsLead(overall, whys) + (" " + Join(explanations, Bullet) + AfterTradeoffs(notes))
  {
    var x := "\n\n" + overall + "\n\n" + Frictions(whys);
    var heading := "\n\n\nTradeoffs:\n\U{2022}";
    var j := " " + Join(explanations, Bullet);
    assert Tradeoffs(explanations) == "\nTradeoffs:\n\U{2022}" + j;
    assert AfterFrictions(explanations, notes) == heading + j + AfterTradeoffs(notes);
    assert TradeoffsLead(overall, whys) == x + heading;
  }

  /** A non-empty `secondary_tradeoffs` list puts the tradeoffs heading
      and its first bullet sign right after the frictions section. */
  lemma TradeoffsAppear(a: Analysis)
    requires Complete(a) && a.secondaryTradeoffs.value != []
    ensures Compose(a).Some?
    ensures var s := Compose(a).value;
            var h := Header(a.inferredIntent.value)
                     + TradeoffsLead(a.overallAssessment, WhyItMatters(a.primaryConflicts.value));
            |h| <= |s| && s[..|h|] == h
  {
    var whys := WhyItMatters(a.primaryConflicts.value);
    var expl := Explanations(a.secondaryTradeoffs.value);
    var notes := a.uncertaintyNotes.value;
    BodyAtTradeoffs(a.overallAssessment, whys, expl, notes);
    var p := TradeoffsLead(a.overallAssessment, whys);
    assert p[|p| - 1] == '\U{2022}';
    BodyPrefixSurvives(a, p, " " + Join(expl, Bullet) + AfterTradeoffs(notes));
  }

  /** The text after the header up to the first bullet of the uncertainty
      section. */
  function UncertaintyLead(overall: string, whys: seq<string>, explanations: seq<string>): string {
    ("\n\n" + overall + "\n\n" + Frictions(whys))
    + ("\n\n" + Tradeoffs(explanations) + "\n\n\nUncertainty:\n\U{2022}")
  }

  lemma BodyAtUncertainty(overall: string, whys: seq<string>, explanations: seq<string>, notes: seq<string>)
    requires notes != []
    ensures Body(overall, whys, explanations, notes)
            == UncertaintyLead(overall, whys, explanations) + (" " + Join(notes, Bullet) + "\n")
  {
    var x := "\n\n" + overall + "\n\n" + Frictions(whys);
    var heading := "\n\n\nUncertainty:\n\U{2022}";
    var t := "\n\n" + Tradeoffs(explanations);
    var j := " " + Join(notes, Bullet);
    assert Uncertainty(notes) == "\nUncertainty:\n\U{2022}" + j;
    assert AfterTradeoffs(notes) == heading + (j + "\n");
    assert AfterFrictions(explanations, notes) == (t + heading) + (j + "\n");
    assert Body(overall, whys, explanations, notes) == x + ((t + heading) + (j + "\n"));
  }

  /** A non-empty `uncertainty_notes` list puts the uncertainty heading and
      its first bullet sign right after the tradeoffs section. */
  lemma UncertaintyAppears(a: Analysis)
    requires Complete(a) && a.uncertaintyNotes.value != []
    ensures Compose(a).Some?
    ensures var s := Compose(a).value;
            var h := Header(a.inferredIntent.value)
                     + UncertaintyLead(a.overallAssessment, WhyItMatters(a.primaryConflicts.value),
                                       Explanations(a.secondaryTradeoffs.value));
            |h| <= |s| && s[..|h|] == h
  {
    var whys := WhyItMatters(a.primaryConflicts.value);
    var expl := Explanations(a.secondaryTradeoffs.value);
    var notes := a.uncertaintyNotes.value;
    BodyAtUncertainty(a.overallAssessment, whys, expl, notes);
    var p := UncertaintyLead(a.overallAssessment, whys, expl);
    assert p[|p| - 1] == '\U{2022}';
    BodyPrefixSurvives(a, p, " " + Join(notes, Bullet) + "\n");
  }

  /** The last entry of a non-empty list is the end of its join. */
  lemma JoinEndsWithLast(entries: seq<string>, sep: string)
    requires entries != []
    ensures var j := Join(entries, sep);
            var last := entries[|entries| - 1];
            |last| <= |j| && j[|j| - |last|..] == last
  {
    var init := entries[..|entries| - 1];
    var last := entries[|entries| - 1];
    assert entries == init + [last];
    if init != [] {
      JoinSnoc(init, last, sep);
    }
  }

  /** A text ending in a visible character followed by one line break
      trims to the text. */
  lemma TrimEndOneBreak(p: string)
    requires p != [] && !IsWhitespace(p[|p| - 1])
    ensures TrimEnd(p + "\n") == p
  {
    TrimEndKeepsPrefix(p, "\n");
    assert TrimEnd("\n") == "";
    assert p + "" == p;
  }

  /** When the last uncertainty note ends in a visible character, the
      summary ends with the complete uncertainty section: every note, in
      order, behind a bullet sign. */
  lemma SummaryEndsWithNotes(a: Analysis)
    requires Complete(a) && a.uncertaintyNotes.value != []
    requires var notes := a.uncertaintyNotes.value;
             var last := notes[|notes| - 1];
             last != [] && !IsWhitespace(last[|last| - 1])
    ensures Compose(a) == Some(Header(a.inferredIntent.value)
              + (UncertaintyLead(a.overallAssessment, WhyItMatters(a.primaryConflicts.value),
                                 Explanations(a.secondaryTradeoffs.value))
                 + (" " + Join(a.uncertaintyNotes.value, Bullet))))
  {
    var whys := WhyItMatters(a.primaryConflicts.value);
    var expl := Explanations(a.secondaryTradeoffs.value);
    var notes := a.uncertaintyNotes.value;
    var last := notes[|notes| - 1];
    SummaryShape(a);
    BodyAtUncertainty(a.overallAssessment, whys, expl, notes);
    var lead := UncertaintyLead(a.overallAssessment, whys, expl);
    var j := Join(notes, Bullet);
    JoinEndsWithLast(notes, Bullet);
    var p := lead + (" " + j);
    assert p[|p| - 1] == j[|j| - 1];
    assert j[|j| - 1] == last[|last| - 1];
    assert lead + (" " + j + "\n") == p + "\n";
    TrimEndOneBreak(p);
  }
}
