/** The work-relevance decision: catalog and keyword evidence, scores, the rule path, the LLM
    judge and what happens when the judge fails. The user intent is given as text; `norm`
    stands for Python's `strip().lower()`. */
module WorkRelevance {
  import opened Common

  // ----- vocabulary -----

  datatype Decision = WorkRelated | NonWorkRelated | NeedsReview | Unknown

  datatype Action = Allow | AlertNonWork | ReviewConflict | RecordOnly

  /** `VALID_DECISION_ACTIONS`. */
  function ActionFor(d: Decision): Action {
    match d
    case WorkRelated => Allow
    case NonWorkRelated => AlertNonWork
    case NeedsReview => ReviewConflict
    case Unknown => RecordOnly
  }

  function DecisionName(d: Decision): (s: string)
    ensures ParseDecision(s) == Some(d)
  {
    match d
    case WorkRelated => "work_related"
    case NonWorkRelated => "non_work_related"
    case NeedsReview => "needs_review"
    case Unknown => "unknown"
  }

  function ParseDecision(s: string): Option<Decision> {
    if s == "work_related" then Some(WorkRelated)
    else if s == "non_work_related" then Some(NonWorkRelated)
    else if s == "needs_review" then Some(NeedsReview)
    else if s == "unknown" then Some(Unknown)
    else None
  }

  function ParseAction(s: string): Option<Action> {
    if s == "allow" then Some(Allow)
    else if s == "alert_non_work" then Some(AlertNonWork)
    else if s == "review_conflict" then Some(ReviewConflict)
    else if s == "record_only" then Some(RecordOnly)
    else None
  }

  // ----- text matching -----

  type Norm = string -> string

  predicate OccursAt(text: string, term: string, i: nat) {
    i + |term| <= |text| && text[i..i + |term|] == term
  }

  predicate Contains(text: string, term: string) {
    exists i | 0 <= i <= |text| :: OccursAt(text, term, i)
  }

  /** The non-empty normalized terms, each once, in order. */
  function Terms(norm: Norm, values: seq<string>): seq<string> {
    if values == [] then []
    else
      var before := Terms(norm, values[..|values| - 1]);
      var t := norm(values[|values| - 1]);
      if t != "" && t !in before then before + [t] else before
  }

  method NormalizedTerms(norm: Norm, values: seq<string>) returns (terms: seq<string>)
    ensures terms == Terms(norm, values)
  {
    var seen: set<string> := {};
    terms := [];
    for i := 0 to |values|
      invariant terms == Terms(norm, values[..i]) && seen == set t | t in terms
    {
      assert values[..i + 1][..i] == values[..i];
      var term := norm(values[i]);
      if term != "" && term !in seen {
        seen := seen + {term};
        terms := terms + [term];
      }
    }
    assert values[..|values|] == values;
  }

  /** Every non-empty normalized value is among the terms, once, and nothing else is. */
  lemma {:induction false} TermsAreTheValues(norm: Norm, values: seq<string>)
    ensures forall t :: t in Terms(norm, values) <==> t != "" && exists v :: v in values && norm(v) == t
    ensures forall i, j | 0 <= i < j < |Terms(norm, values)| :: Terms(norm, values)[i] != Terms(norm, values)[j]
    decreases |values|
  {
    if values != [] {
      var front, last := values[..|values| - 1], values[|values| - 1];
      TermsAreTheValues(norm, front);
      assert values == front + [last];
      assert forall v :: v in values <==> v in front || v == last;
    }
  }

  function Matched(text: string, terms: seq<string>): seq<string> {
    if terms == [] then []
    else Matched(text, terms[..|terms| - 1]) + if Contains(text, terms[|terms| - 1]) then [terms[|terms| - 1]] else []
  }

  lemma {:induction false} MatchedAreContained(text: string, terms: seq<string>)
    ensures forall t :: t in Matched(text, terms) <==> t in terms && Contains(text, t)
    decreases |terms|
  {
    if terms != [] {
      var front, last := terms[..|terms| - 1], terms[|terms| - 1];
      MatchedAreContained(text, front);
      assert terms == front + [last];
    }
  }

  // ----- the context catalog -----

  datatype Entry = Entry(name: string, aliases: seq<string>, keywords: seq<string>, active: bool)

  datatype Strength = Strong | Weak

  datatype Source = CatalogAlias | CatalogName | CatalogKeyword | Keyword | Fallback | LlmJudge

  datatype Match = Match(entry: Entry, terms: seq<string>, strength: Strength)

  function StrongMatch(norm: Norm, text: string, e: Entry): seq<Match> {
    var terms := Matched(text, Terms(norm, e.aliases + [e.name]));
    if e.active && terms != [] then [Match(e, terms, Strong)] else []
  }

  function WeakMatch(norm: Norm, text: string, e: Entry): seq<Match> {
    var terms := Matched(text, Terms(norm, e.keywords));
    if e.active && terms != [] then [Match(e, terms, Weak)] else []
  }

  function StrongMatches(norm: Norm, text: string, catalog: seq<Entry>): seq<Match> {
    if catalog == [] then []
    else StrongMatches(norm, text, catalog[..|catalog| - 1]) + StrongMatch(norm, text, catalog[|catalog| - 1])
  }

  function WeakMatches(norm: Norm, text: string, catalog: seq<Entry>): seq<Match> {
    if catalog == [] then []
    else WeakMatches(norm, text, catalog[..|catalog| - 1]) + WeakMatch(norm, text, catalog[|catalog| - 1])
  }

  /** `_catalog_matches`. */
  method CatalogMatches(norm: Norm, text: string, catalog: seq<Entry>) returns (strong: seq<Match>, weak: seq<Match>)
    ensures strong == StrongMatches(norm, text, catalog)
    ensures weak == WeakMatches(norm, text, catalog)
  {
    strong, weak := [], [];
    for i := 0 to |catalog|
      invariant strong == StrongMatches(norm, text, catalog[..i])
      invariant weak == WeakMatches(norm, text, catalog[..i])
    {
      assert catalog[..i + 1][..i] == catalog[..i];
      var e := catalog[i];
      if !e.active { continue; }
      var strongTerms := NormalizedTerms(norm, e.aliases + [e.name]);
      var weakTerms := NormalizedTerms(norm, e.keywords);
      var matchedStrong, matchedWeak := Matched(text, strongTerms), Matched(text, weakTerms);
      if matchedStrong != [] { strong := strong + [Match(e, matchedStrong, Strong)]; }
      if matchedWeak != [] { weak := weak + [Match(e, matchedWeak, Weak)]; }
    }
    assert catalog[..|catalog|] == catalog;
  }

  /** The text mentions the name or an alias of an active entry. */
  ghost predicate Mentions(norm: Norm, text: string, catalog: seq<Entry>) {
    exists e, v :: e in catalog && e.active && v in e.aliases + [e.name] && norm(v) != "" && Contains(text, norm(v))
  }

  lemma {:induction false} StrongMatchesExactly(norm: Norm, text: string, catalog: seq<Entry>)
    ensures StrongMatches(norm, text, catalog) != [] <==> Mentions(norm, text, catalog)
    ensures forall m | m in StrongMatches(norm, text, catalog) :: m.strength.Strong?
    decreases |catalog|
  {
    if catalog != [] {
      var front, e := catalog[..|catalog| - 1], catalog[|catalog| - 1];
      StrongMatchesExactly(norm, text, front);
      assert catalog == front + [e];
      StrongMatchExactly(norm, text, e);
    }
  }

  lemma StrongMatchExactly(norm: Norm, text: string, e: Entry)
    ensures StrongMatch(norm, text, e) != []
       <==> e.active && exists v :: v in e.aliases + [e.name] && norm(v) != "" && Contains(text, norm(v))
  {
    var values := e.aliases + [e.name];
    var terms := Terms(norm, values);
    TermsAreTheValues(norm, values);
    MatchedAreContained(text, terms);
    if Matched(text, terms) != [] {
      var t := Matched(text, terms)[0];
      assert t in terms && Contains(text, t);
      var v :| v in values && norm(v) == t;
    }
    if v :| v in values && norm(v) != "" && Contains(text, norm(v)) {
      assert norm(v) in terms;
      assert norm(v) in Matched(text, terms);
    }
  }

  /** `_match_payload(match)["source"]`. */
  function MatchSource(norm: Norm, m: Match): Source {
    if exists t | t in m.terms :: t in Terms(norm, m.entry.aliases) then CatalogAlias
    else if norm(m.entry.name) in m.terms then CatalogName
    else CatalogKeyword
  }

  /** An alias of the entry, not merely its name, occurs in the text. */
  ghost predicate AliasOccurs(norm: Norm, text: string, e: Entry) {
    exists v :: v in e.aliases && norm(v) != "" && Contains(text, norm(v))
  }

  ghost predicate MentionsAlias(norm: Norm, text: string, catalog: seq<Entry>) {
    exists e :: e in catalog && e.active && AliasOccurs(norm, text, e)
  }

  lemma AliasMatchExactly(norm: Norm, text: string, e: Entry)
    ensures (exists m :: m in StrongMatch(norm, text, e) && MatchSource(norm, m) == CatalogAlias)
       <==> e.active && AliasOccurs(norm, text, e)
  {
    var values := e.aliases + [e.name];
    var matched := Matched(text, Terms(norm, values));
    TermsAreTheValues(norm, values);
    TermsAreTheValues(norm, e.aliases);
    MatchedAreContained(text, Terms(norm, values));
    var m := Match(e, matched, Strong);
    if v :| v in e.aliases && norm(v) != "" && Contains(text, norm(v)) {
      assert v in values;
      assert norm(v) in Terms(norm, e.aliases) && norm(v) in matched;
      assert MatchSource(norm, m) == CatalogAlias;
    }
  }

  lemma {:induction false} AliasMatchesExactly(norm: Norm, text: string, catalog: seq<Entry>)
    ensures (exists m :: m in StrongMatches(norm, text, catalog) && MatchSource(norm, m) == CatalogAlias)
       <==> MentionsAlias(norm, text, catalog)
    decreases |catalog|
  {
    if catalog != [] {
      var front, e := catalog[..|catalog| - 1], catalog[|catalog| - 1];
      AliasMatchesExactly(norm, text, front);
      AliasMatchExactly(norm, text, e);
      assert catalog == front + [e];
      assert StrongMatches(norm, text, catalog) == StrongMatches(norm, text, front) + StrongMatch(norm, text, e);
    }
  }

  // ----- evidence -----

  datatype Kind = WorkContext | WorkTask | NonWork | HighRisk | Insufficient | LlmVerdict | LlmUnavailable

  datatype Evidence = Evidence(kind: Kind, category: string, weight: real, source: Source)

  type Table = seq<(string, seq<string>)>

  /** `TASK_KEYWORDS`, `NON_WORK_KEYWORDS` and `HIGH_RISK_KEYWORDS`. */
  datatype Keywords = Keywords(task: Table, nonWork: Table, highRisk: Table)

  /** The categories of a table with a term in the text, in table order. */
  function Hits(text: string, table: Table): seq<string> {
    if table == [] then []
    else
      var row := table[|table| - 1];
      Hits(text, table[..|table| - 1]) + if Matched(text, row.1) != [] then [row.0] else []
  }

  /** One evidence item of the same kind, weight and source for each category. */
  function Uniform(categories: seq<string>, kind: Kind, weight: real, source: Source): (r: seq<Evidence>)
    ensures |r| == |categories|
  {
    seq(|categories|, i requires 0 <= i < |categories| => Evidence(kind, categories[i], weight, source))
  }

  function FromKeywords(text: string, table: Table, kind: Kind, weight: real): seq<Evidence> {
    Uniform(Hits(text, table), kind, weight, Keyword)
  }

  /** `_keyword_evidence`. */
  method KeywordEvidence(text: string, table: Table, kind: Kind, weight: real) returns (evidence: seq<Evidence>)
    ensures evidence == FromKeywords(text, table, kind, weight)
  {
    evidence := [];
    for i := 0 to |table|
      invariant evidence == FromKeywords(text, table[..i], kind, weight)
    {
      assert table[..i + 1][..i] == table[..i];
      var matched := Matched(text, table[i].1);
      if matched == [] { continue; }
      evidence := evidence + [Evidence(kind, table[i].0, weight, Keyword)];
    }
    assert table[..|table|] == table;
  }

  function ContextWeight(s: Strength): real { if s.Strong? then 0.9 else 0.35 }

  function FromMatches(norm: Norm, matches: seq<Match>): (r: seq<Evidence>)
    ensures |r| == |matches|
  {
    seq(|matches|, i requires 0 <= i < |matches| =>
      Evidence(WorkContext, "context_catalog", ContextWeight(matches[i].strength), MatchSource(norm, matches[i])))
  }

  // ----- scores -----

  datatype Score = Score(work: real, nonWork: real, risk: real, conflict: real, uncertainty: real)

  function MinReal(a: real, b: real): real { if a <= b then a else b }

  function MaxReal(a: real, b: real): real { if a <= b then b else a }

  function Weight(evidence: seq<Evidence>, kinds: set<Kind>): real {
    if evidence == [] then 0.0
    else
      var last := evidence[|evidence| - 1];
      Weight(evidence[..|evidence| - 1], kinds) + if last.kind in kinds then last.weight else 0.0
  }

  /** `round(x, 3)`; a tie goes up. */
  function Round3(x: real): real {
    (x * 1000.0 + 0.5).Floor as real / 1000.0
  }

  function Rounded(s: Score): Score {
    Score(Round3(s.work), Round3(s.nonWork), Round3(s.risk), Round3(s.conflict), Round3(s.uncertainty))
  }

  function ScoreEvidence(evidence: seq<Evidence>): Score {
    Rounded(RawScore(evidence))
  }

  function RawScore(evidence: seq<Evidence>): Score {
    var work := MinReal(1.0, Weight(evidence, {WorkContext, WorkTask}));
    var nonWork := MinReal(1.0, Weight(evidence, {NonWork}));
    var risk := MinReal(1.0, Weight(evidence, {HighRisk}));
    Score(work, nonWork, risk, MinReal(work, MaxReal(nonWork, risk)),
          if evidence == [] then 1.0 else MaxReal(0.0, 1.0 - MaxReal(work, MaxReal(nonWork, risk))))
  }

  function DecisionFromScores(s: Score): (Decision, Action, bool, real) {
    if s.conflict >= 0.5 then (NeedsReview, ReviewConflict, true, 0.65)
    else if s.risk >= 0.8 then (NonWorkRelated, AlertNonWork, false, s.risk)
    else if s.nonWork >= 0.7 then (NonWorkRelated, AlertNonWork, false, s.nonWork)
    else if s.work >= 0.7 && s.nonWork < 0.3 && s.risk < 0.3 then (WorkRelated, Allow, false, s.work)
    else (Unknown, RecordOnly, false, 0.25)
  }

  // ----- the LLM judge -----

  datatype Confidence = Missing | NotANumber | Number(n: real)

  /** What the judge call yields: an exception, or the raw decision, action and confidence. */
  datatype Answer = Fails(error: string) | Raw(decision: string, action: string, confidence: Confidence)

  datatype Verdict = Verdict(decision: Decision, action: Action, confidence: real)

  function Clamp(c: Confidence): real {
    match c
    case Missing => 0.7
    case NotANumber => 0.0
    case Number(n) => MaxReal(0.0, MinReal(1.0, n))
  }

  /** The error type of a failure, or a verdict. */
  datatype Judged = Failed(error: string) | Gave(verdict: Verdict)

  const LEGAL_PAIRS := {
    ("work_related", "allow"), ("non_work_related", "alert_non_work"),
    ("needs_review", "review_conflict"), ("unknown", "record_only")}

  /** `judge` and `_build_verdict`: an answer becomes a verdict exactly when it is one of the four
      legal decision/action pairs. */
  function Judge(a: Answer): (r: Judged)
    ensures r.Gave? <==> a.Raw? && (a.decision, a.action) in LEGAL_PAIRS
    ensures r.Gave? ==> r.verdict.action == ActionFor(r.verdict.decision) && 0.0 <= r.verdict.confidence <= 1.0
  {
    match a
    case Fails(error) => Failed(error)
    case Raw(decision, action, confidence) =>
      match (ParseDecision(decision), ParseAction(action))
      case (Some(d), Some(k)) => if ActionFor(d) == k then Gave(Verdict(d, k, Clamp(confidence)))
          else Failed("invalid_result")
      case _ => Failed("invalid_result")
  }

  datatype Tier = Low | Medium | High

  function TokenTier(tokens: int): Tier {
    if tokens <= 2000 then Low else if tokens >= 20000 then High else Medium
  }

  datatype Reason = MixedSignals | HighCostUnknown | MediumWeakSignals

  // ----- classification -----

  datatype Assessment = Assessment(
    decision: Decision, action: Action, needsReview: bool, confidence: real, work: real, personal: real,
    score: Score, matched: seq<Match>, evidence: seq<Evidence>, reason: Option<Reason>)

  /** The assessment, or the judge's error re-raised. */
  datatype Outcome = Assessed(a: Assessment) | Raised(error: string)

  /** The text, the catalog and the token count of one trace, and the keyword tables in force. */
  datatype Trace = Trace(norm: Norm, keywords: Keywords, text: string, catalog: seq<Entry>, tokens: int) {
    function Strong(): seq<Match> { StrongMatches(norm, text, catalog) }

    function Weak(): seq<Match> { WeakMatches(norm, text, catalog) }

    function Context(): seq<Evidence> { FromMatches(norm, Strong() + Weak()) }

    function Task(): seq<Evidence> { FromKeywords(text, keywords.task, WorkTask, 0.45) }

    function NonWork(): seq<Evidence> { FromKeywords(text, keywords.nonWork, Kind.NonWork, 0.8) }

    function Risk(): seq<Evidence> { FromKeywords(text, keywords.highRisk, HighRisk, 1.0) }

    function Gathered(): seq<Evidence> { Context() + Task() + NonWork() + Risk() }

    predicate FastPath() {
      && !TokenTier(tokens).High?
      && NonWork() == [] && Risk() == []
      && (exists m | m in Strong() :: MatchSource(norm, m) == CatalogAlias)
    }

    /** `_llm_invocation_reason`. */
    function LlmReason(): Option<Reason> {
      if (NonWork() != [] || Risk() != []) && (Strong() != [] || Weak() != []) then Some(MixedSignals)
      else if TokenTier(tokens).High? && Strong() == [] then Some(HighCostUnknown)
      else if TokenTier(tokens).Medium? && Weak() != [] then Some(MediumWeakSignals)
      else None
    }

    /** The judge is called: there is text, no fast path, a judge, permission and a reason. */
    predicate Consults(judge: Option<Answer>, allowLlm: bool) {
      text != "" && !FastPath() && allowLlm && judge.Some? && LlmReason().Some?
    }

    function WithoutText(): Assessment {
      var score := Score(0.0, 0.0, 0.0, 0.0, 1.0);
      var (decision, action, needsReview, confidence) := DecisionFromScores(score);
      Assessment(decision, action, needsReview, confidence, 0.0, 0.0, score, [],
                 [Evidence(Insufficient, "no_text", 0.0, Fallback)], None)
    }

    /** The answer of the fast path. */
    function AtOnce(): Assessment {
      Assessment(WorkRelated, Allow, false, 0.95, 0.95, 0.0, Score(0.95, 0.0, 0.0, 0.0, 0.05), Strong(),
          Gathered(), None)
    }

    function ByRules(): Assessment {
      var evidence := if Gathered() == [] then [Evidence(Insufficient, "no_match", 0.0, Fallback)]
                      else Gathered();
      var score := ScoreEvidence(evidence);
      var (decision, action, needsReview, confidence) := DecisionFromScores(score);
      Assessment(decision, action, needsReview, confidence, score.work, MaxReal(score.nonWork, score.risk), score,
                 Strong() + Weak(), evidence, LlmReason())
    }

    function ByVerdict(v: Verdict): Assessment {
      var work := match v.decision
        case WorkRelated => MaxReal(0.7, v.confidence)
        case NeedsReview => 0.5
        case _ => 0.0;
      var personal := match v.decision
        case NonWorkRelated => MaxReal(0.7, v.confidence)
        case NeedsReview => 0.5
        case _ => 0.0;
      Assessment(v.decision, v.action, v.action.ReviewConflict?, v.confidence, work, personal,
                 Rounded(Score(work, personal, 0.0, MinReal(work, personal), MaxReal(0.0, 1.0 - v.confidence))),
                 Strong() + Weak(),
                 Gathered() + [Evidence(LlmVerdict, DecisionName(v.decision), v.confidence, LlmJudge)], LlmReason())
    }

    /** `_conservative_llm_fallback`, on the assessment made without the judge. */
    function Conservative(a: Assessment, reason: Reason, error: string): Assessment {
      var b := a.(evidence := a.evidence + [Evidence(LlmUnavailable, error, 0.0, LlmJudge)],
                  reason := Some(reason));
      match reason
      case MixedSignals => b.(decision := NeedsReview, action := ReviewConflict, needsReview := true)
      case HighCostUnknown => b.(decision := Unknown, action := RecordOnly, needsReview := false)
      case MediumWeakSignals => b
    }

    /** `classify_work_relevance`. */
    function Classify(judge: Option<Answer>, allowLlm: bool, strict: bool): Outcome
      decreases judge.Some?
    {
      if text == "" then Assessed(WithoutText())
      else if FastPath() then Assessed(AtOnce())
      else if allowLlm && judge.Some? && LlmReason().Some? then
        match Judge(judge.value)
        case Gave(v) => Assessed(ByVerdict(v))
        case Failed(error) =>
          if strict then Raised(error)
          else
            match Classify(None, false, false)
            case Assessed(a) => Assessed(Conservative(a, LlmReason().value, error))
            case Raised(e) => Raised(e)
      else
        Assessed(ByRules())
    }
  }

  /** `detect_work_relevance_anomalies`: the anomaly types raised. */
  function Anomalies(a: Assessment): seq<string> {
    if a.action.AlertNonWork? then ["non_work_use"] else []
  }

  // ----- what the evidence weighs -----

  lemma {:induction false} WeightOfConcat(a: seq<Evidence>, b: seq<Evidence>, kinds: set<Kind>)
    ensures Weight(a + b, kinds) == Weight(a, kinds) + Weight(b, kinds)
    decreases |b|
  {
    if b == [] {
      assert a + b == a;
    } else {
      WeightOfConcat(a, b[..|b| - 1], kinds);
      assert (a + b)[..|a + b| - 1] == a + b[..|b| - 1];
    }
  }

  ghost predicate AllAlike(evidence: seq<Evidence>, kind: Kind, weight: real) {
    forall e | e in evidence :: e.kind == kind && e.weight == weight
  }

  /** `n` items of weight `w`. */
  function Times(w: real, n: nat): real {
    if n == 0 then 0.0 else Times(w, n - 1) + w
  }

  lemma {:induction false} TimesGrows(w: real, n: nat)
    requires w >= 0.0
    ensures Times(w, n) >= 0.0
    ensures n == 1 ==> Times(w, n) == w
    ensures n >= 1 ==> Times(w, n) >= w
    ensures n >= 2 ==> Times(w, n) >= w + w
  {
    if n > 0 { TimesGrows(w, n - 1); }
  }

  lemma {:induction false} WeightOfAlike(evidence: seq<Evidence>, kind: Kind, weight: real, kinds: set<Kind>)
    requires AllAlike(evidence, kind, weight)
    ensures Weight(evidence, kinds) == if kind in kinds then Times(weight, |evidence|) else 0.0
    decreases |evidence|
  {
    if evidence != [] {
      var front := evidence[..|evidence| - 1];
      WeightOfAlike(front, kind, weight, kinds);
    }
  }

  lemma {:induction false} WeakMatchesAreWeak(norm: Norm, text: string, catalog: seq<Entry>)
    ensures forall m | m in WeakMatches(norm, text, catalog) :: m.strength.Weak?
    decreases |catalog|
  {
    if catalog != [] { WeakMatchesAreWeak(norm, text, catalog[..|catalog| - 1]); }
  }

  lemma FromMatchesOfConcat(norm: Norm, a: seq<Match>, b: seq<Match>)
    ensures FromMatches(norm, a + b) == FromMatches(norm, a) + FromMatches(norm, b)
  {
  }

  lemma WeightOfMatches(norm: Norm, matches: seq<Match>, strength: Strength, kinds: set<Kind>)
    requires forall m | m in matches :: m.strength == strength
    ensures Weight(FromMatches(norm, matches), kinds)
         == if WorkContext in kinds then Times(ContextWeight(strength), |matches|) else 0.0
  {
    WeightOfAlike(FromMatches(norm, matches), WorkContext, ContextWeight(strength), kinds);
  }

  lemma WeightOfContext(t: Trace, kinds: set<Kind>)
    ensures Weight(t.Context(), kinds)
         == if WorkContext in kinds then Times(0.9, |t.Strong()|) + Times(0.35, |t.Weak()|) else 0.0
  {
    StrongMatchesExactly(t.norm, t.text, t.catalog);
    WeakMatchesAreWeak(t.norm, t.text, t.catalog);
    FromMatchesOfConcat(t.norm, t.Strong(), t.Weak());
    WeightOfConcat(FromMatches(t.norm, t.Strong()), FromMatches(t.norm, t.Weak()), kinds);
    WeightOfMatches(t.norm, t.Strong(), Strong, kinds);
    WeightOfMatches(t.norm, t.Weak(), Weak, kinds);
  }

  lemma WeightOfEvidence(t: Trace, kinds: set<Kind>)
    ensures Weight(t.Gathered(), kinds)
         == Weight(t.Context(), kinds) + Weight(t.Task(), kinds) + Weight(t.NonWork(), kinds) + Weight(t.Risk(), kinds)
  {
    WeightOfConcat(t.Context() + t.Task() + t.NonWork(), t.Risk(), kinds);
    WeightOfConcat(t.Context() + t.Task(), t.NonWork(), kinds);
    WeightOfConcat(t.Context(), t.Task(), kinds);
  }

  lemma WeightOfKeywords(text: string, table: Table, kind: Kind, weight: real, kinds: set<Kind>)
    ensures Weight(FromKeywords(text, table, kind, weight), kinds)
         == if kind in kinds then Times(weight, |Hits(text, table)|) else 0.0
  {
    WeightOfAlike(FromKeywords(text, table, kind, weight), kind, weight, kinds);
  }

  /** What counts as work, non-work and risk evidence under the rules. */
  ghost function RuleWeight(t: Trace, kinds: set<Kind>): real { Weight(t.ByRules().evidence, kinds) }

  lemma WeightByKind(t: Trace, kinds: set<Kind>)
    requires Insufficient !in kinds
    ensures RuleWeight(t, kinds)
         == (if WorkContext in kinds then Times(0.9, |t.Strong()|) + Times(0.35, |t.Weak()|) else 0.0)
          + (if WorkTask in kinds then Times(0.45, |t.Task()|) else 0.0)
          + (if NonWork in kinds then Times(0.8, |t.NonWork()|) else 0.0)
          + (if HighRisk in kinds then Times(1.0, |t.Risk()|) else 0.0)
  {
    WeightOfContext(t, kinds);
    WeightOfKeywords(t.text, t.keywords.task, WorkTask, 0.45, kinds);
    WeightOfKeywords(t.text, t.keywords.nonWork, NonWork, 0.8, kinds);
    WeightOfKeywords(t.text, t.keywords.highRisk, HighRisk, 1.0, kinds);
    WeightOfEvidence(t, kinds);
    assert t.Gathered() == [] ==> RuleWeight(t, kinds) == 0.0;
  }

  ghost predicate Weighs(t: Trace, work: real, nonWork: real, risk: real) {
    && work == Times(0.9, |t.Strong()|) + Times(0.35, |t.Weak()|) + Times(0.45, |t.Task()|)
    && nonWork == Times(0.8, |t.NonWork()|)
    && risk == Times(1.0, |t.Risk()|)
  }

  lemma RuleWeights(t: Trace)
    ensures Weighs(t, RuleWeight(t, {WorkContext, WorkTask}), RuleWeight(t, {NonWork}), RuleWeight(t, {HighRisk}))
  {
    WeightByKind(t, {WorkContext, WorkTask});
    WeightByKind(t, {NonWork});
    WeightByKind(t, {HighRisk});
  }

  lemma WeightBounds(t: Trace, work: real, nonWork: real, risk: real)
    requires Weighs(t, work, nonWork, risk)
    ensures work >= 0.0 && nonWork >= 0.0 && risk >= 0.0
    ensures t.Strong() != [] ==> work >= 0.9
    ensures |t.Weak()| + |t.Task()| >= 2 ==> work >= 0.7
    ensures t.Strong() == [] && |t.Weak()| + |t.Task()| <= 1 ==> work < 0.5
    ensures if t.NonWork() == [] then nonWork == 0.0 else nonWork >= 0.8
    ensures if t.Risk() == [] then risk == 0.0 else risk >= 1.0
  {
    TimesGrows(0.9, |t.Strong()|);
    TimesGrows(0.35, |t.Weak()|);
    TimesGrows(0.45, |t.Task()|);
    TimesGrows(0.8, |t.NonWork()|);
    TimesGrows(1.0, |t.Risk()|);
  }

  // ----- rounding -----

  lemma RoundStaysInUnit(x: real)
    requires 0.0 <= x <= 1.0
    ensures 0.0 <= Round3(x) <= 1.0
  {
  }

  function Twentieths(n: int): real {
    n as real / 20.0
  }

  ghost predicate OnGrid(x: real) {
    exists n :: Twentieths(n) == x
  }

  lemma GridIsFixed(x: real)
    requires OnGrid(x)
    ensures Round3(x) == x
  {
    var n :| Twentieths(n) == x;
    Scaled(n);
    FloorOfHalf(50 * n);
  }

  lemma Scaled(n: int)
    ensures Twentieths(n) * 1000.0 == (50 * n) as real && (50 * n) as real / 1000.0 == Twentieths(n)
  {
    assert (50 * n) as real == 50.0 * n as real;
  }

  lemma FloorOfHalf(k: int)
    ensures (k as real + 0.5).Floor == k
  {
  }

  lemma GridSum(x: real, y: real)
    requires OnGrid(x) && OnGrid(y)
    ensures OnGrid(x + y)
  {
    var m, n :| Twentieths(m) == x && Twentieths(n) == y;
    assert Twentieths(m + n) == x + y;
  }

  lemma {:induction false} TimesOnGrid(j: int, n: nat)
    ensures OnGrid(Times(Twentieths(j), n))
  {
    if n == 0 {
      assert Twentieths(0) == 0.0;
    } else {
      TimesOnGrid(j, n - 1);
      assert OnGrid(Twentieths(j));
      GridSum(Times(Twentieths(j), n - 1), Twentieths(j));
    }
  }

  /** All evidence weights are multiples of 0.05, so under the rules rounding changes no score. */
  lemma RulesNeedNoRounding(t: Trace)
    ensures t.ByRules().score == RawScore(t.ByRules().evidence)
  {
    RuleWeights(t);
    TimesOnGrid(18, |t.Strong()|);
    TimesOnGrid(7, |t.Weak()|);
    TimesOnGrid(9, |t.Task()|);
    TimesOnGrid(16, |t.NonWork()|);
    TimesOnGrid(20, |t.Risk()|);
    GridSum(Times(0.9, |t.Strong()|), Times(0.35, |t.Weak()|));
    GridSum(Times(0.9, |t.Strong()|) + Times(0.35, |t.Weak()|), Times(0.45, |t.Task()|));
    GridScoreIsFixed(t.ByRules().evidence);
  }

  lemma GridScoreIsFixed(evidence: seq<Evidence>)
    requires OnGrid(Weight(evidence, {WorkContext, WorkTask}))
    requires OnGrid(Weight(evidence, {NonWork})) && OnGrid(Weight(evidence, {HighRisk}))
    ensures Rounded(RawScore(evidence)) == RawScore(evidence)
  {
    var s := RawScore(evidence);
    assert Twentieths(20) == 1.0 && Twentieths(0) == 0.0;
    GridIsFixed(s.work);
    GridIsFixed(s.nonWork);
    GridIsFixed(s.risk);
    GridIsFixed(s.conflict);
    var m :| Twentieths(m) == MaxReal(s.work, MaxReal(s.nonWork, s.risk));
    assert Twentieths(20 - m) == 1.0 - Twentieths(m);
    GridIsFixed(s.uncertainty);
  }

  // ----- results -----

  ghost predicate OffTopic(t: Trace) { t.NonWork() != [] || t.Risk() != [] }

  ghost predicate Supported(t: Trace) { Mentions(t.norm, t.text, t.catalog) || |t.Weak()| + |t.Task()| >= 2 }

  function ByQuestions(offTopic: bool, supported: bool): Decision {
    if offTopic then (if supported then NeedsReview else NonWorkRelated)
    else if supported then WorkRelated
    else Unknown
  }

  /** The thresholds, on scores that keep clear of them. */
  lemma ThresholdsDecide(s: Score, offTopic: bool, supported: bool)
    requires s.conflict == MinReal(s.work, MaxReal(s.nonWork, s.risk))
    requires if offTopic then s.nonWork >= 0.8 || s.risk >= 0.8 else s.nonWork == 0.0 && s.risk == 0.0
    requires if supported then s.work >= 0.7 else s.work < 0.5
    ensures DecisionFromScores(s).0 == ByQuestions(offTopic, supported)
  {
  }

  /** The weights and thresholds come down to two questions: does the text have a non-work or
      high-risk term, and does it name something in the catalog or have two pieces of weaker work
      evidence (an entry by keyword, a task category)? */
  lemma RulesDecideExactly(t: Trace)
    ensures t.ByRules().decision == ByQuestions(OffTopic(t), Supported(t))
  {
    StrongMatchesExactly(t.norm, t.text, t.catalog);
    RuleWeights(t);
    WeightBounds(t, RuleWeight(t, {WorkContext, WorkTask}), RuleWeight(t, {NonWork}), RuleWeight(t, {HighRisk}));
    RulesNeedNoRounding(t);
    ThresholdsDecide(t.ByRules().score, OffTopic(t), Supported(t));
  }

  /** The fast path is taken exactly when the trace is not expensive, nothing is off topic and an
      alias of an active entry occurs. */
  lemma FastPathExactly(t: Trace)
    ensures t.FastPath() <==> !TokenTier(t.tokens).High? && !OffTopic(t) && MentionsAlias(t.norm, t.text, t.catalog)
  {
    AliasMatchesExactly(t.norm, t.text, t.catalog);
  }

  /** Unless a judge is consulted the decision is the one the rules give, so the fast path only
      saves work; no text means unknown. */
  lemma UnjudgedDecidesExactly(t: Trace, judge: Option<Answer>, allowLlm: bool, strict: bool)
    requires !t.Consults(judge, allowLlm)
    ensures var r := t.Classify(judge, allowLlm, strict);
      r.Assessed? && r.a.decision == if t.text == "" then Unknown else t.ByRules().decision
  {
    if t.FastPath() {
      RulesDecideExactly(t);
      StrongMatchesExactly(t.norm, t.text, t.catalog);
    }
  }

  /** Naming an active catalog entry rules out the alert whenever no judge verdict decides. */
  lemma CatalogMentionIsNeverAlerted(t: Trace, judge: Option<Answer>, allowLlm: bool, strict: bool)
    requires Mentions(t.norm, t.text, t.catalog)
    requires t.Consults(judge, allowLlm) ==> Judge(judge.value).Failed?
    ensures var r := t.Classify(judge, allowLlm, strict); r.Assessed? ==> !r.a.action.AlertNonWork?
  {
    RulesDecideExactly(t);
    RulesWellFormed(t);
  }

  ghost predicate Degraded(a: Assessment) {
    exists e :: e in a.evidence && e.kind.LlmUnavailable?
  }

  /** A failed judge call leaves its mark, and never ends in an alert. */
  lemma DegradedNeverAlerts(t: Trace, judge: Option<Answer>, allowLlm: bool)
    requires t.Consults(judge, allowLlm) && Judge(judge.value).Failed?
    ensures var r := t.Classify(judge, allowLlm, false);
      && r.Assessed? && Degraded(r.a) && !r.a.action.AlertNonWork?
      && (t.LlmReason().value.MixedSignals? ==> r.a.decision.NeedsReview?)
      && (t.LlmReason().value.HighCostUnknown? ==> r.a.decision.Unknown?)
  {
    RulesDecideExactly(t);
    RulesWellFormed(t);
    assert t.Classify(judge, allowLlm, false).Assessed?;
    var a := t.Classify(judge, allowLlm, false).a;
    assert a.evidence[|a.evidence| - 1].kind.LlmUnavailable?;
  }

  /** The decision for every input: an unreadable text is unknown; a judge that is consulted decides
      by its verdict, and if it fails the caller gets its error or a cautious decision by the reason
      it was asked; without a judge two questions about the text decide. */
  ghost function DecisionFor(t: Trace, judge: Option<Answer>, allowLlm: bool): Decision {
    if t.text == "" then Unknown
    else if !t.Consults(judge, allowLlm) then ByQuestions(OffTopic(t), Supported(t))
    else
      match Judge(judge.value)
      case Gave(v) => v.decision
      case Failed(_) =>
        match t.LlmReason().value
        case MixedSignals => NeedsReview
        case HighCostUnknown => Unknown
        case MediumWeakSignals => ByQuestions(false, Supported(t))
  }

  lemma DecidesExactly(t: Trace, judge: Option<Answer>, allowLlm: bool, strict: bool)
    ensures t.Classify(judge, allowLlm, strict).Raised?
       <==> strict && t.Consults(judge, allowLlm) && Judge(judge.value).Failed?
    ensures var r := t.Classify(judge, allowLlm, strict);
      r.Assessed? ==> r.a.decision == DecisionFor(t, judge, allowLlm)
  {
    if !t.Consults(judge, allowLlm) { UnjudgedDecidesExactly(t, judge, allowLlm, strict); }
    RulesDecideExactly(t);
  }

  ghost predicate InUnit(x: real) { 0.0 <= x <= 1.0 }

  ghost predicate ScoresInUnit(s: Score) {
    InUnit(s.work) && InUnit(s.nonWork) && InUnit(s.risk) && InUnit(s.conflict) && InUnit(s.uncertainty)
  }

  ghost predicate WellFormed(a: Assessment) {
    && a.action == ActionFor(a.decision)
    && (a.needsReview <==> a.decision.NeedsReview?)
    && (Anomalies(a) != [] <==> a.decision.NonWorkRelated?)
    && InUnit(a.confidence) && InUnit(a.work) && InUnit(a.personal) && ScoresInUnit(a.score)
  }

  lemma ScoresAreInUnit(evidence: seq<Evidence>)
    requires Weight(evidence, {WorkContext, WorkTask}) >= 0.0
    requires Weight(evidence, {NonWork}) >= 0.0 && Weight(evidence, {HighRisk}) >= 0.0
    ensures ScoresInUnit(RawScore(evidence))
  {
  }

  lemma RoundedInUnit(s: Score)
    requires ScoresInUnit(s)
    ensures ScoresInUnit(Rounded(s))
  {
    RoundStaysInUnit(s.work);
    RoundStaysInUnit(s.nonWork);
    RoundStaysInUnit(s.risk);
    RoundStaysInUnit(s.conflict);
    RoundStaysInUnit(s.uncertainty);
  }

  lemma RuleScoresInUnit(t: Trace)
    ensures ScoresInUnit(t.ByRules().score)
  {
    RuleWeights(t);
    WeightBounds(t, RuleWeight(t, {WorkContext, WorkTask}), RuleWeight(t, {NonWork}), RuleWeight(t, {HighRisk}));
    ScoresAreInUnit(t.ByRules().evidence);
    RoundedInUnit(RawScore(t.ByRules().evidence));
  }

  lemma RulesWellFormed(t: Trace)
    ensures WellFormed(t.ByRules())
  {
    RuleScoresInUnit(t);
  }

  lemma VerdictsWellFormed(t: Trace, answer: Answer)
    requires Judge(answer).Gave?
    ensures WellFormed(t.ByVerdict(Judge(answer).verdict))
  {
    var v := Judge(answer).verdict;
    var a := t.ByVerdict(v);
    RoundedInUnit(Score(a.work, a.personal, 0.0, MinReal(a.work, a.personal), MaxReal(0.0, 1.0 - v.confidence)));
  }

  lemma FallbackWellFormed(t: Trace, a: Assessment, reason: Reason, error: string)
    requires WellFormed(a)
    ensures WellFormed(t.Conservative(a, reason, error))
  {
  }

  lemma ShortPathsWellFormed(t: Trace)
    ensures WellFormed(t.WithoutText()) && WellFormed(t.AtOnce())
  {
  }

  /** Every path ends in a legal decision/action pair, with the review flag and the anomaly telling
      the same story and every score in [0, 1]. */
  lemma EveryPathIsWellFormed(t: Trace, judge: Option<Answer>, allowLlm: bool, strict: bool)
    ensures var r := t.Classify(judge, allowLlm, strict); r.Assessed? ==> WellFormed(r.a)
  {
    if t.text == "" || t.FastPath() {
      ShortPathsWellFormed(t);
    } else if t.Consults(judge, allowLlm) && Judge(judge.value).Gave? {
      VerdictsWellFormed(t, judge.value);
    } else if t.Consults(judge, allowLlm) {
      RulesWellFormed(t);
      FallbackWellFormed(t, t.ByRules(), t.LlmReason().value, Judge(judge.value).error);
    } else {
      RulesWellFormed(t);
    }
  }
}
