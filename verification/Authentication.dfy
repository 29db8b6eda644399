// Deciding an authentication: template comparison, presentation-attack scores and the final policy.
module Authentication {
  import opened Wrappers
  import opened Protocol
  import opened Vectors
  import opened Aggregation
  import opened Enrollment

  datatype PadRole = InfraredPad | VisiblePad | FusionPad

  // One model's live probability, bound to that model's digest.
  datatype PadScore = PadScore(role: PadRole, digest: string, probability: real)

  datatype PadContract = PadContract(digest: string, minimum: real)

  datatype PadPolicy = PadPolicy(infrared: PadContract, visible: PadContract, fusion: Option<PadContract>)

  datatype AuthPolicy = AuthPolicy(
    requireInfrared: bool, requireVisible: bool, maxPairSkew: u64, requireActive: bool,
    minimumSimilarity: real, minimumQuality: real, passwordFallback: bool)

  datatype AuthenticationObservation = AuthenticationObservation(
    infraredTime: u64, visibleTime: Option<u64>, quality: real, embedding: Embedding, scores: seq<PadScore>,
    challengePassed: bool)

  datatype DecisionReason =
    | EvidenceAccepted | NoInfrared | NoVisible | LowQuality | PassiveLiveness | ActiveChallenge | Mismatch

  // ---------------------------------------------------------------- presentation-attack scores

  predicate ValidContract(c: PadContract) {
    ValidDigest(c.digest) && UnitScore(c.minimum)
  }

  predicate ValidPadPolicy(p: PadPolicy) {
    ValidContract(p.infrared) && ValidContract(p.visible) && (p.fusion.Some? ==> ValidContract(p.fusion.value))
  }

  function Matching(scores: seq<PadScore>, role: PadRole): (s: seq<PadScore>) {
    if scores == [] then []
    else Matching(scores[..|scores| - 1], role)
         + if scores[|scores| - 1].role == role then [scores[|scores| - 1]] else []
  }

  // The only score of a role, which must come from the model of the contract.
  function ExactScore(scores: seq<PadScore>, role: PadRole, digest: string): (r: Result<PadScore, Unit>) {
    var matching := Matching(scores, role);
    if matching == [] then Failure(Unit.Unit)
    else if |matching| > 1 || matching[0].digest != digest then Failure(Unit.Unit)
    else Success(matching[0])
  }

  // A verdict, or an error for evidence that does not match the configured models exactly.
  function PadVerdict(p: PadPolicy, scores: seq<PadScore>): (r: Result<bool, Unit>) {
    if !ValidPadPolicy(p) then Failure(Unit.Unit)
    else
      var infrared := ExactScore(scores, InfraredPad, p.infrared.digest);
      var visible := ExactScore(scores, VisiblePad, p.visible.digest);
      if infrared.Failure? || visible.Failure? then Failure(Unit.Unit)
      else
        var both := infrared.value.probability >= p.infrared.minimum && visible.value.probability >= p.visible.minimum;
        if p.fusion.None? then Success(both && Matching(scores, FusionPad) == [])
        else
          var fusion := ExactScore(scores, FusionPad, p.fusion.value.digest);
          if fusion.Failure? then Failure(Unit.Unit)
          else Success(both && fusion.value.probability >= p.fusion.value.minimum)
  }

  // ---------------------------------------------------------------- comparison and policy

  function Compared(template: TemplateRecord, embedding: Embedding): (r: Result<real, Unit>) {
    if !ValidRecord(template) || template.digest != embedding.digest || |template.embedding| != |embedding.values|
    then Failure(Unit.Unit)
    else if !(MIN_EMBEDDING_DIMENSION <= |template.embedding| <= MAX_EMBEDDING_DIMENSION) then Failure(Unit.Unit)
    else Success(Mapped(Dot(embedding.values, template.embedding)))
  }

  predicate ValidPolicy(p: AuthPolicy) {
    && p.requireInfrared && p.maxPairSkew != 0
    && UnitScore(p.minimumSimilarity) && UnitScore(p.minimumQuality) && p.passwordFallback
  }

  predicate TimingAccepted(p: AuthPolicy, o: AuthenticationObservation) {
    && p.requireInfrared && p.maxPairSkew != 0
    && match o.visibleTime
       case None => !p.requireVisible
       case Some(visible) => AbsDiff(o.infraredTime, visible) <= p.maxPairSkew
  }

  // The policy's verdict on scored evidence. Both observations count as made by then.
  function Evaluated(p: AuthPolicy, similarity: real, quality: real, passive: bool, active: bool,
                     infrared: bool, visible: bool): (r: Result<DecisionReason, Unit>)
  {
    if !ValidPolicy(p) || !UnitScore(similarity) || !UnitScore(quality) then Failure(Unit.Unit)
    else
      Success(
        if !infrared then NoInfrared
        else if p.requireVisible && !visible then NoVisible
        else if quality < p.minimumQuality then LowQuality
        else if !passive then PassiveLiveness
        else if p.requireActive && !active then ActiveChallenge
        else if similarity < p.minimumSimilarity then Mismatch
        else EvidenceAccepted)
  }

  function Authenticated(p: AuthPolicy, pad: PadPolicy, template: TemplateRecord, o: AuthenticationObservation)
    : (r: Result<DecisionReason, Unit>)
  {
    if !TimingAccepted(p, o) then Failure(Unit.Unit)
    else
      var similarity := Compared(template, o.embedding);
      var passive := PadVerdict(pad, o.scores);
      if similarity.Failure? || passive.Failure? then Failure(Unit.Unit)
      else Evaluated(p, similarity.value, o.quality, passive.value, o.challengePassed, true, true)
  }

  function DecisionCodeOf(reason: DecisionReason): (d: DecisionCode) {
    match reason
    case EvidenceAccepted => Accepted
    case NoInfrared => InfraredMissing
    case NoVisible => VisibleMissing
    case LowQuality => DecisionCode.InsufficientQuality
    case PassiveLiveness => PassiveLivenessFailed
    case ActiveChallenge => ActiveChallengeFailed
    case Mismatch => FaceMismatch
  }

  // The decision for some evidence about a user: storage and malformed evidence are internal errors.
  function Decided(p: AuthPolicy, pad: PadPolicy, template: Result<TemplateRecord, Unit>, o: AuthenticationObservation)
    : (d: DecisionCode)
  {
    if template.Failure? then InternalError
    else
      match Authenticated(p, pad, template.value, o)
      case Success(reason) => DecisionCodeOf(reason)
      case Failure(_) => InternalError
  }

  // The policy names the first requirement that falls short, in the order camera, camera, quality,
  // passive liveness, challenge, similarity; and it accepts exactly when none does.
  lemma TheFirstShortfallIsNamed(p: AuthPolicy, similarity: real, quality: real, passive: bool, active: bool,
                                 infrared: bool, visible: bool)
    ensures
      var r := Evaluated(p, similarity, quality, passive, active, infrared, visible);
      var seen := infrared && (p.requireVisible ==> visible);
      var sharp := seen && quality >= p.minimumQuality;
      var live := sharp && passive;
      var challenged := live && (p.requireActive ==> active);
      && (r.Success? <==>
            && p.requireInfrared && p.passwordFallback && p.maxPairSkew > 0 && UnitScore(p.minimumSimilarity)
            && UnitScore(p.minimumQuality) && UnitScore(similarity) && UnitScore(quality))
      && (r.Success? ==>
            var d := DecisionCodeOf(r.value);
            && (d == InfraredMissing <==> !infrared)
            && (d == VisibleMissing <==> infrared && p.requireVisible && !visible)
            && (d == DecisionCode.InsufficientQuality <==> seen && quality < p.minimumQuality)
            && (d == PassiveLivenessFailed <==> sharp && !passive)
            && (d == ActiveChallengeFailed <==> live && p.requireActive && !active)
            && (d == FaceMismatch <==> challenged && similarity < p.minimumSimilarity)
            && (d == Accepted <==> challenged && similarity >= p.minimumSimilarity))
  {
  }

  // ---------------------------------------------------------------- what a decision means

  // Exactly one score of the role was supplied; it is the contract's model's.
  ghost predicate Sole(scores: seq<PadScore>, role: PadRole, i: nat) {
    i < |scores| && scores[i].role == role && forall j :: 0 <= j < |scores| && j != i ==> scores[j].role != role
  }

  ghost predicate OneScore(scores: seq<PadScore>, role: PadRole, digest: string) {
    exists i: nat :: Sole(scores, role, i) && scores[i].digest == digest
  }

  ghost predicate Below(scores: seq<PadScore>, role: PadRole, minimum: real) {
    exists i :: 0 <= i < |scores| && scores[i].role == role && scores[i].probability < minimum
  }

  ghost predicate NoScore(scores: seq<PadScore>, role: PadRole) {
    forall i :: 0 <= i < |scores| ==> scores[i].role != role
  }

  // The policies are valid, and the scores are those of the configured models, each once.
  ghost predicate ScoresMatch(p: PadPolicy, scores: seq<PadScore>) {
    && ValidDigest(p.infrared.digest) && 0.0 <= p.infrared.minimum <= 1.0
    && ValidDigest(p.visible.digest) && 0.0 <= p.visible.minimum <= 1.0
    && (p.fusion.Some? ==> ValidDigest(p.fusion.value.digest) && 0.0 <= p.fusion.value.minimum <= 1.0)
    && OneScore(scores, InfraredPad, p.infrared.digest) && OneScore(scores, VisiblePad, p.visible.digest)
    && (p.fusion.Some? ==> OneScore(scores, FusionPad, p.fusion.value.digest))
  }

  ghost predicate LooksLive(p: PadPolicy, scores: seq<PadScore>) {
    && !Below(scores, InfraredPad, p.infrared.minimum) && !Below(scores, VisiblePad, p.visible.minimum)
    && if p.fusion.Some? then !Below(scores, FusionPad, p.fusion.value.minimum) else NoScore(scores, FusionPad)
  }

  // The template is a valid record of the same model as the observed embedding.
  ghost predicate Comparable(template: TemplateRecord, embedding: Embedding) {
    && ValidRecord(template) && template.digest == embedding.digest && |template.embedding| == |embedding.values|
    && MIN_EMBEDDING_DIMENSION <= |template.embedding|
  }

  // Evidence the policy can judge at all.
  ghost predicate WellFormed(p: AuthPolicy, pad: PadPolicy, template: Result<TemplateRecord, Unit>,
                             o: AuthenticationObservation)
  {
    && template.Success? && Comparable(template.value, o.embedding) && ScoresMatch(pad, o.scores)
    && p.requireInfrared && p.passwordFallback && p.maxPairSkew != 0
    && UnitScore(p.minimumSimilarity) && UnitScore(p.minimumQuality) && UnitScore(o.quality)
    && (o.visibleTime.None? ==> !p.requireVisible)
    && (o.visibleTime.Some? ==>
          && o.infraredTime <= o.visibleTime.value + p.maxPairSkew
          && o.visibleTime.value <= o.infraredTime + p.maxPairSkew)
  }

  ghost predicate Resembles(p: AuthPolicy, template: TemplateRecord, embedding: Embedding)
    requires Comparable(template, embedding)
  {
    Mapped(Dot(embedding.values, template.embedding)) >= p.minimumSimilarity
  }

  // When each decision is given: the first of quality, passive liveness, the challenge and similarity to
  // fall short, acceptance if none does, and an internal error for evidence that cannot be judged.
  ghost predicate Warrants(p: AuthPolicy, pad: PadPolicy, template: Result<TemplateRecord, Unit>,
                           o: AuthenticationObservation, d: DecisionCode)
  {
    var judged := WellFormed(p, pad, template, o);
    var sharp, live := o.quality >= p.minimumQuality, LooksLive(pad, o.scores);
    var challenged := p.requireActive ==> o.challengePassed;
    match d
    case InternalError => !judged
    case InsufficientQuality => judged && !sharp
    case PassiveLivenessFailed => judged && sharp && !live
    case ActiveChallengeFailed => judged && sharp && live && !challenged
    case FaceMismatch => judged && sharp && live && challenged && !Resembles(p, template.value, o.embedding)
    case Accepted => judged && sharp && live && challenged && Resembles(p, template.value, o.embedding)
    case _ => false
  }

  lemma {:induction false} MatchingScores(scores: seq<PadScore>, role: PadRole)
    ensures forall m :: m in Matching(scores, role) ==> m in scores && m.role == role
    ensures Matching(scores, role) == [] <==> NoScore(scores, role)
    decreases |scores|
  {
    if scores != [] {
      var n := |scores| - 1;
      MatchingScores(scores[..n], role);
      assert scores == scores[..n] + [scores[n]];
      if NoScore(scores[..n], role) && scores[n].role != role { assert NoScore(scores, role); }
      if NoScore(scores, role) { assert scores[n].role != role && NoScore(scores[..n], role); }
    }
  }

  // A single match is the one score of its role, and conversely.
  lemma {:induction false} SoleMatches(scores: seq<PadScore>, role: PadRole, i: nat)
    requires Sole(scores, role, i)
    ensures Matching(scores, role) == [scores[i]]
    decreases |scores|
  {
    var n := |scores| - 1;
    if i == n {
      assert NoScore(scores[..n], role);
      MatchingScores(scores[..n], role);
    } else {
      SoleMatches(scores[..n], role, i);
    }
  }

  lemma {:induction false} MatchIsSole(scores: seq<PadScore>, role: PadRole) returns (i: nat)
    requires |Matching(scores, role)| == 1
    ensures Sole(scores, role, i)
    decreases |scores|
  {
    var n := |scores| - 1;
    var rest := scores[..n];
    if scores[n].role == role {
      i := n;
      MatchingScores(rest, role);
      assert NoScore(rest, role);
      forall j | 0 <= j < |scores| && j != i ensures scores[j].role != role { assert scores[j] == rest[j]; }
    } else {
      i := MatchIsSole(rest, role);
      forall j | 0 <= j < |scores| && j != i ensures scores[j].role != role {
        if j < n { assert scores[j] == rest[j]; }
      }
    }
  }

  lemma ExactScoreIsTheOne(scores: seq<PadScore>, role: PadRole, digest: string, minimum: real)
    ensures ExactScore(scores, role, digest).Success? <==> OneScore(scores, role, digest)
    ensures ExactScore(scores, role, digest).Success? ==>
              (ExactScore(scores, role, digest).value.probability >= minimum <==> !Below(scores, role, minimum))
  {
    hide Matching;
    if OneScore(scores, role, digest) {
      var i: nat :| Sole(scores, role, i) && scores[i].digest == digest;
      SoleMatches(scores, role, i);
    }
    if ExactScore(scores, role, digest).Success? {
      var i := MatchIsSole(scores, role);
      SoleMatches(scores, role, i);
    }
  }

  lemma PadVerdictMeans(p: PadPolicy, scores: seq<PadScore>)
    ensures PadVerdict(p, scores).Success? <==> ScoresMatch(p, scores)
    ensures PadVerdict(p, scores).Success? ==> (PadVerdict(p, scores).value <==> LooksLive(p, scores))
  {
    ExactScoreIsTheOne(scores, InfraredPad, p.infrared.digest, p.infrared.minimum);
    ExactScoreIsTheOne(scores, VisiblePad, p.visible.digest, p.visible.minimum);
    if p.fusion.Some? { ExactScoreIsTheOne(scores, FusionPad, p.fusion.value.digest, p.fusion.value.minimum); }
    MatchingScores(scores, FusionPad);
    hide ExactScore;
    hide OneScore;
    hide Below;
    hide Matching;
    hide ValidDigest;
  }

  lemma MappedIsAScore(cosine: real)
    ensures UnitScore(Mapped(cosine))
  {
  }

  lemma AuthenticatedMeans(p: AuthPolicy, pad: PadPolicy, template: TemplateRecord, o: AuthenticationObservation)
    ensures Authenticated(p, pad, template, o).Success? <==> WellFormed(p, pad, Success(template), o)
    ensures WellFormed(p, pad, Success(template), o) ==>
              Authenticated(p, pad, template, o) ==
              Evaluated(p, Mapped(Dot(o.embedding.values, template.embedding)), o.quality, LooksLive(pad, o.scores),
                        o.challengePassed, true, true)
  {
    hide Dot;
    hide Mapped;
    hide ValidRecord;
    hide PadVerdict;
    hide ScoresMatch;
    hide LooksLive;
    PadVerdictMeans(pad, o.scores);
    if |template.embedding| == |o.embedding.values| { MappedIsAScore(Dot(o.embedding.values, template.embedding)); }
    assert ValidRecord(template) ==> |template.embedding| <= MAX_EMBEDDING_DIMENSION by { RecordsAreBounded(template); }
  }

  lemma RecordsAreBounded(template: TemplateRecord)
    ensures ValidRecord(template) ==> |template.embedding| <= MAX_EMBEDDING_DIMENSION
  {
  }

  // Every decision is given exactly when it is warranted; a missing camera is never the reason here.
  lemma DecidedIffWarranted(p: AuthPolicy, pad: PadPolicy, template: Result<TemplateRecord, Unit>,
                            o: AuthenticationObservation, d: DecisionCode)
    ensures Decided(p, pad, template, o) == d <==> Warrants(p, pad, template, o, d)
  {
    if template.Success? {
      AuthenticatedMeans(p, pad, template.value, o);
      if WellFormed(p, pad, template, o) { JudgedMeans(p, pad, template.value, o); }
    }
    hide Authenticated;
    hide WellFormed;
    hide LooksLive;
    hide Resembles;
    hide Evaluated;
  }

  lemma JudgedMeans(p: AuthPolicy, pad: PadPolicy, template: TemplateRecord, o: AuthenticationObservation)
    requires WellFormed(p, pad, Success(template), o)
    ensures var r := Evaluated(p, Mapped(Dot(o.embedding.values, template.embedding)), o.quality,
                               LooksLive(pad, o.scores), o.challengePassed, true, true);
            var sharp, live := o.quality >= p.minimumQuality, LooksLive(pad, o.scores);
            var challenged := p.requireActive ==> o.challengePassed;
            r == Success(if !sharp then LowQuality else if !live then PassiveLiveness
                         else if !challenged then ActiveChallenge
                         else if !Resembles(p, template, o.embedding) then Mismatch else EvidenceAccepted)
  {
    MappedIsAScore(Dot(o.embedding.values, template.embedding));
    hide Dot;
    hide Mapped;
    hide ValidRecord;
    hide ScoresMatch;
    hide LooksLive;
  }

  // Good evidence in every respect but the similarity.
  ghost predicate GoodBut(p: AuthPolicy, pad: PadPolicy, o: AuthenticationObservation) {
    && ValidPolicy(p) && TimingAccepted(p, o) && UnitScore(o.quality) && o.quality >= p.minimumQuality
    && ScoresMatch(pad, o.scores) && LooksLive(pad, o.scores) && (p.requireActive ==> o.challengePassed)
  }

  // From enrollment to authentication: whoever shows the embedding of any sample a finished template was
  // made of is accepted, as long as the policy asks for no more similarity than the enrollment did.
  lemma EnrolledSamplesAuthenticate(s: SessionState, uid: nat, root: real, k: nat, p: AuthPolicy, pad: PadPolicy,
                                    o: AuthenticationObservation)
    requires Inv(s) && IsNorm(s, root) && root > 0.0 && Units(s.samples) && k < |s.samples|
             && ValidDigest(s.digest.value)
    requires 0.5 <= s.config.minimumSimilarity && p.minimumSimilarity <= s.config.minimumSimilarity
    requires o.embedding == Embedding(s.digest.value, s.samples[k]) && GoodBut(p, pad, o)
    ensures Decided(p, pad, Success(Template(s, uid, root)), o) == Accepted
  {
    var template := Template(s, uid, root);
    TemplateIsValid(s, uid, root);
    FinishedTemplateMatches(s, uid, root, k);
    DotCommutes(template.embedding, s.samples[k]);
    DecidedIffWarranted(p, pad, Success(template), o, Accepted);
    SampleIsComparable(s, uid, root, k);
    hide Template;
    hide Inv;
    hide IsNorm;
    hide Units;
    hide Decided;
    hide ValidRecord;
    hide ScoresMatch;
    hide LooksLive;
    hide Dot;
    hide Mapped;
  }

  lemma SampleIsComparable(s: SessionState, uid: nat, root: real, k: nat)
    requires Inv(s) && root != 0.0 && k < |s.samples|
    ensures var template := Template(s, uid, root);
            && template.digest == s.digest.value
            && |template.embedding| == |s.samples[k]| && MIN_EMBEDDING_DIMENSION <= |template.embedding|
  {
  }
}
