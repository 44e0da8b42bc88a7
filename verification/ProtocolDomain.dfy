/**
 The protocol state carried along a path, the transfer tags that change it, and
 the pair-valued edge function that summarises a procedure's effect.

 The bit sets of the source are modelled as sets of enumerated values; every
 operation used on them (or, and, test for zero) has the same meaning there.
 */
module ProtocolDomain {

  datatype Validation = Proven | Required

  datatype Hazard = Escaped | Consumed

  datatype Reason =
    | NoReason
    | StateBudget
    | WitnessBudget
    | Timeout
    | RecursionCycle
    | UnresolvedTarget
    | CallMapping
    | FeasibilityUnknown
    | MissingSSA
    | UnsupportedInstruction
    | AmbiguousIdentity
    | ConcurrentMutation
    | EscapedHeapMutation
    | Reflection
    | UnsafePackage

  datatype ErrorResult = ResultUnknown | ResultNil | ResultNonNil

  datatype DeferredError = DeferredUnknown | DeferredNil | DeferredValidation | DeferredOther

  datatype Identity = Unrelated | MustAlias | MayAlias | UnknownIdentity {
    function Rank(): nat {
      match this
      case Unrelated => 0
      case MustAlias => 1
      case MayAlias => 2
      case UnknownIdentity => 3
    }

    function Join(other: Identity): Identity {
      if Rank() >= other.Rank() then this else other
    }
  }

  datatype Effect =
    | MayValidate
    | MayMutate
    | MayReplace
    | MayEscape
    | MayConsume
    | MayTerminate
    | MayConstrain

  const UNKNOWN_CALL_EFFECTS: set<Effect> :=
    {MayValidate, MayMutate, MayReplace, MayEscape, MayConsume, MayTerminate, MayConstrain}

  /** What an uncertainty reason may do to the tracked value; empty for reasons that stop a path. */
  function EffectsOf(reason: Reason): set<Effect> {
    match reason
    case ConcurrentMutation => {MayMutate, MayReplace}
    case EscapedHeapMutation => {MayMutate, MayReplace, MayEscape}
    case AmbiguousIdentity => {MayMutate, MayReplace, MayEscape, MayConsume, MayConstrain}
    case UnresolvedTarget => UNKNOWN_CALL_EFFECTS
    case CallMapping => UNKNOWN_CALL_EFFECTS
    case Reflection => UNKNOWN_CALL_EFFECTS
    case UnsafePackage => UNKNOWN_CALL_EFFECTS
    case _ => {}
  }

  function IdentityOf(reason: Reason): Identity {
    if reason == AmbiguousIdentity then MayAlias
    else if EffectsOf(reason) != {} then MustAlias
    else Unrelated
  }

  datatype State = State(
    validation: Validation,
    hazards: set<Hazard>,
    uncertainty: set<Reason>,
    result: ErrorResult,
    deferred: DeferredError,
    identity: Identity,
    effects: set<Effect>)
  {
    predicate IsProven() { validation == Proven }

    predicate IsRequired() { validation == Required }

    predicate HasEscaped() { Escaped in hazards }

    predicate WasConsumed() { Consumed in hazards }

    /** The most severe uncertainty recorded, in the fixed order of the source. */
    function PathReason(): Reason {
      if Timeout in uncertainty then Timeout
      else if StateBudget in uncertainty then StateBudget
      else if WitnessBudget in uncertainty then WitnessBudget
      else if RecursionCycle in uncertainty then RecursionCycle
      else if FeasibilityUnknown in uncertainty then FeasibilityUnknown
      else if MissingSSA in uncertainty then MissingSSA
      else if UnsupportedInstruction in uncertainty then UnsupportedInstruction
      else if ConcurrentMutation in uncertainty then ConcurrentMutation
      else if EscapedHeapMutation in uncertainty then EscapedHeapMutation
      else if AmbiguousIdentity in uncertainty then AmbiguousIdentity
      else if Reflection in uncertainty then Reflection
      else if UnsafePackage in uncertainty then UnsafePackage
      else if UnresolvedTarget in uncertainty then UnresolvedTarget
      else if CallMapping in uncertainty then CallMapping
      else NoReason
    }

    function WithUncertainty(reason: Reason): State {
      if reason == NoReason then this
      else this.(uncertainty := uncertainty + {reason},
                 effects := effects + EffectsOf(reason),
                 identity := identity.Join(IdentityOf(reason)))
    }
  }

  /** Smaller is more severe, in the order in which the answers name reasons. */
  function Severity(reason: Reason): nat {
    match reason
    case Timeout => 0
    case StateBudget => 1
    case WitnessBudget => 2
    case RecursionCycle => 3
    case FeasibilityUnknown => 4
    case MissingSSA => 5
    case UnsupportedInstruction => 6
    case ConcurrentMutation => 7
    case EscapedHeapMutation => 8
    case AmbiguousIdentity => 9
    case Reflection => 10
    case UnsafePackage => 11
    case UnresolvedTarget => 12
    case CallMapping => 13
    case NoReason => 14
  }

  /** The reason named is one that is recorded, and nothing recorded is more severe. */
  lemma MostSevereNamed(s: State)
    ensures s.PathReason() == NoReason <==> s.uncertainty <= {NoReason}
    ensures s.PathReason() != NoReason ==>
              s.PathReason() in s.uncertainty
              && forall r :: r in s.uncertainty ==> Severity(s.PathReason()) <= Severity(r)
  {
    forall r | r in s.uncertainty
      ensures Severity(s.PathReason()) <= Severity(r)
    {
      match r
      case NoReason =>
      case Timeout | StateBudget | WitnessBudget | RecursionCycle | FeasibilityUnknown =>
      case MissingSSA | UnsupportedInstruction =>
      case ConcurrentMutation | EscapedHeapMutation | AmbiguousIdentity =>
      case Reflection | UnsafePackage | UnresolvedTarget | CallMapping =>
    }
    if s.PathReason() == NoReason {
      forall r | r in s.uncertainty
        ensures r == NoReason
      {
        assert Severity(s.PathReason()) <= Severity(r);
      }
    }
  }

  const REQUIRED_STATE := State(Required, {}, {}, ResultUnknown, DeferredUnknown, Unrelated, {})
  const VALIDATED_STATE := State(Proven, {}, {}, ResultNil, DeferredUnknown, Unrelated, {})
  const FAILED_STATE := State(Required, {}, {}, ResultNonNil, DeferredUnknown, Unrelated, {})
  const ESCAPED_STATE := State(Required, {Escaped}, {}, ResultUnknown, DeferredUnknown, Unrelated, {})
  const CONSUMED_STATE := State(Required, {Consumed}, {}, ResultUnknown, DeferredUnknown, Unrelated, {})

  datatype Tag =
    | TagIdentity
    | TagValidate
    | TagValidationFailed
    | TagInvalidate
    | TagEscape
    | TagConsume
    | TagDeferredNil
    | TagDeferredValidation
    | TagDeferredOther
    | TagDeferredUnknown

  function Transfer(tag: Tag, s: State): State {
    match tag
    case TagIdentity => s
    case TagValidate => s.(validation := Proven, result := ResultNil)
    case TagValidationFailed => s.(result := ResultNonNil)
    case TagInvalidate =>
      s.(validation := Required,
         result := ResultUnknown,
         deferred := if s.deferred == DeferredValidation then DeferredOther else s.deferred)
    case TagEscape => if s.IsRequired() then s.(hazards := s.hazards + {Escaped}) else s
    case TagConsume => if s.IsRequired() then s.(hazards := s.hazards + {Consumed}) else s
    case TagDeferredNil => s.(deferred := DeferredNil)
    case TagDeferredValidation => s.(deferred := DeferredValidation)
    case TagDeferredOther => s.(deferred := DeferredOther)
    case TagDeferredUnknown => s.(deferred := DeferredUnknown, identity := UnknownIdentity)
  }

  /** A sequence of transfers, from the first to the last. */
  function TransferAll(tags: seq<Tag>, s: State): State {
    if tags == [] then s else Transfer(tags[|tags| - 1], TransferAll(tags[..|tags| - 1], s))
  }

  /** Some transfer is this one, and none after it is one of those. */
  ghost predicate LastOf(tags: seq<Tag>, wanted: Tag, undone: set<Tag>) {
    exists i :: 0 <= i < |tags| && tags[i] == wanted && forall j :: i < j < |tags| ==> tags[j] !in undone
  }

  /** Some transfer is this one, and the value was unproven when it came. */
  ghost predicate WhileRequired(tags: seq<Tag>, tag: Tag, s: State) {
    exists i :: 0 <= i < |tags| && tags[i] == tag && !TransferAll(tags[..i], s).IsProven()
  }

  ghost predicate NoneOf(tags: seq<Tag>, undone: set<Tag>) {
    forall i :: 0 <= i < |tags| ==> tags[i] !in undone
  }

  /** One of these came last, or the state had it from the start and none of those came. */
  ghost predicate CameLast(tags: seq<Tag>, wanted: Tag, undone: set<Tag>, had: bool) {
    LastOf(tags, wanted, undone) || (had && NoneOf(tags, undone))
  }

  const RESULT_UNDONE: set<Tag> := {TagValidate, TagValidationFailed, TagInvalidate}

  const DEFERRED_UNDONE: set<Tag> :=
    {TagDeferredNil, TagDeferredOther, TagDeferredUnknown, TagInvalidate}

  /**
   The state in terms of its history: proven by a validation that nothing undid, or from the
   start; never less uncertain.
   */
  lemma {:induction false} HistoryDecides(tags: seq<Tag>, s: State)
    ensures var t := TransferAll(tags, s);
            && (t.IsProven() <==> CameLast(tags, TagValidate, {TagInvalidate}, s.IsProven()))
            && t.uncertainty == s.uncertainty && t.effects == s.effects
            && t.identity == if TagDeferredUnknown in tags then UnknownIdentity else s.identity
    decreases |tags|
  {
    hide CameLast;
    if tags == [] {
      NothingCameLast(TagValidate, {TagInvalidate}, s.IsProven());
    } else {
      var k := |tags| - 1;
      HistoryDecides(tags[..k], s);
      CameLastLonger(tags[..k], tags[k], TagValidate, {TagInvalidate}, s.IsProven());
      assert tags == tags[..k] + [tags[k]];
    }
  }

  /** Escaped or consumed only if that came while the value was unproven. */
  lemma {:induction false} HistoryDecidesHazards(tags: seq<Tag>, s: State)
    ensures var t := TransferAll(tags, s);
            && (t.HasEscaped() <==> s.HasEscaped() || WhileRequired(tags, TagEscape, s))
            && (t.WasConsumed() <==> s.WasConsumed() || WhileRequired(tags, TagConsume, s))
    decreases |tags|
  {
    hide WhileRequired;
    if tags == [] {
      NothingWhileRequired(TagEscape, s);
      NothingWhileRequired(TagConsume, s);
    } else {
      var k := |tags| - 1;
      HistoryDecidesHazards(tags[..k], s);
      WhileRequiredLonger(tags[..k], tags[k], TagEscape, s);
      WhileRequiredLonger(tags[..k], tags[k], TagConsume, s);
      assert tags == tags[..k] + [tags[k]];
    }
  }

  /** Result and deferred error are those of what came last. */
  lemma {:induction false} HistoryDecidesErrors(tags: seq<Tag>, s: State)
    ensures var t := TransferAll(tags, s);
            && (t.result == ResultNil <==> CameLast(tags, TagValidate, RESULT_UNDONE, s.result == ResultNil))
            && (t.result == ResultNonNil <==>
                CameLast(tags, TagValidationFailed, RESULT_UNDONE, s.result == ResultNonNil))
            && (t.deferred == DeferredValidation <==>
                CameLast(tags, TagDeferredValidation, DEFERRED_UNDONE, s.deferred == DeferredValidation))
    decreases |tags|
  {
    hide CameLast;
    if tags == [] {
      NothingCameLast(TagValidate, RESULT_UNDONE, s.result == ResultNil);
      NothingCameLast(TagValidationFailed, RESULT_UNDONE, s.result == ResultNonNil);
      NothingCameLast(TagDeferredValidation, DEFERRED_UNDONE, s.deferred == DeferredValidation);
    } else {
      var k := |tags| - 1;
      HistoryDecidesErrors(tags[..k], s);
      CameLastLonger(tags[..k], tags[k], TagValidate, RESULT_UNDONE, s.result == ResultNil);
      CameLastLonger(tags[..k], tags[k], TagValidationFailed, RESULT_UNDONE, s.result == ResultNonNil);
      CameLastLonger(tags[..k], tags[k], TagDeferredValidation, DEFERRED_UNDONE, s.deferred == DeferredValidation);
      assert tags == tags[..k] + [tags[k]];
    }
  }

  lemma NothingCameLast(wanted: Tag, undone: set<Tag>, had: bool)
    ensures CameLast([], wanted, undone, had) <==> had
  {
  }

  lemma NothingWhileRequired(tag: Tag, s: State)
    ensures !WhileRequired([], tag, s)
  {
  }

  lemma CameLastLonger(tags: seq<Tag>, last: Tag, wanted: Tag, undone: set<Tag>, had: bool)
    ensures CameLast(tags + [last], wanted, undone, had) <==>
            last == wanted || (CameLast(tags, wanted, undone, had) && last !in undone)
  {
    var more, n := tags + [last], |tags|;
    if LastOf(more, wanted, undone) {
      var i :| 0 <= i < |more| && more[i] == wanted && forall j :: i < j < |more| ==> more[j] !in undone;
      if i < n {
        assert tags[i] == wanted && more[n] !in undone;
        assert forall j :: i < j < n ==> tags[j] == more[j];
      }
    }
    if NoneOf(more, undone) {
      assert more[n] !in undone && forall i :: 0 <= i < n ==> more[i] == tags[i];
    }
    if last == wanted {
      assert more[n] == wanted;
    } else if LastOf(tags, wanted, undone) && last !in undone {
      var i :| 0 <= i < n && tags[i] == wanted && forall j :: i < j < n ==> tags[j] !in undone;
      assert more[i] == wanted;
    }
  }

  lemma WhileRequiredLonger(tags: seq<Tag>, last: Tag, tag: Tag, s: State)
    ensures WhileRequired(tags + [last], tag, s) <==>
            WhileRequired(tags, tag, s) || (last == tag && !TransferAll(tags, s).IsProven())
  {
    var more := tags + [last];
    assert forall i :: 0 <= i <= |tags| ==> more[..i] == tags[..i];
    assert more[..|tags|] == tags && more[|tags|] == last;
    if last == tag && !TransferAll(tags, s).IsProven() {
      assert more[|tags|] == tag && !TransferAll(more[..|tags|], s).IsProven();
    }
    if i :| 0 <= i < |tags| && tags[i] == tag && !TransferAll(tags[..i], s).IsProven() {
      assert more[i] == tag && !TransferAll(more[..i], s).IsProven();
    }
  }

  /** The tag a witness step records for a change of state. */
  function TransitionTag(before: State, after: State): Tag {
    if before == after then TagIdentity
    else if before.IsRequired() && after.IsProven() then TagValidate
    else if before.IsRequired() && after.IsRequired()
            && before.result != ResultNonNil && after.result == ResultNonNil then
      TagValidationFailed
    else if before.IsProven() && after.IsRequired() then TagInvalidate
    else if !before.HasEscaped() && after.HasEscaped() then TagEscape
    else if !before.WasConsumed() && after.WasConsumed() then TagConsume
    else if before.deferred != after.deferred then
      match after.deferred
      case DeferredNil => TagDeferredNil
      case DeferredValidation => TagDeferredValidation
      case DeferredOther => TagDeferredOther
      case DeferredUnknown => TagDeferredUnknown
    else TagIdentity
  }

  /** Nothing of this transfer shows in validation, hazards or deferred error, though it changes the state. */
  predicate Hidden(tag: Tag, s: State) {
    || (tag == TagValidate && s.IsProven() && s.result != ResultNil)
    || (tag == TagValidationFailed && s.IsProven() && s.result != ResultNonNil)
    || (tag == TagInvalidate && s.IsRequired() && s.result != ResultUnknown)
    || (tag == TagDeferredUnknown && s.deferred == DeferredUnknown && s.identity != UnknownIdentity)
  }

  /** The tag computed from the two states of a step does what the transfer did, exactly unless that was hidden. */
  lemma TagRecovers(tag: Tag, s: State)
    ensures Transfer(TransitionTag(s, Transfer(tag, s)), s) == Transfer(tag, s) <==> !Hidden(tag, s)
  {
  }

  /** What replay demands of a recorded transfer: uncertainty may only have grown. */
  predicate TransferMatches(transferred: State, observed: State) {
    && transferred.validation == observed.validation
    && transferred.hazards == observed.hazards
    && transferred.uncertainty <= observed.uncertainty
    && transferred.identity.Rank() <= observed.identity.Rank()
    && transferred.effects <= observed.effects
  }

  /** The composed effect of a path: what becomes of a required and of a proven state. */
  datatype EdgeFn = EdgeFn(required: State, proven: State) {
    function Apply(s: State): State {
      var to := if s.IsRequired() then required else proven;
      s.(validation := to.validation, hazards := s.hazards + to.hazards, result := to.result)
    }

    function Then(tag: Tag): EdgeFn {
      EdgeFn(Transfer(tag, required), Transfer(tag, proven))
    }

    function ThenSummary(next: EdgeFn): EdgeFn {
      EdgeFn(next.Apply(required), next.Apply(proven))
    }
  }

  const IDENTITY_EDGE := EdgeFn(REQUIRED_STATE, VALIDATED_STATE)

  /** The composed effect of a sequence of transfers. */
  function ThenAll(tags: seq<Tag>, effect: EdgeFn): EdgeFn {
    if tags == [] then effect else ThenAll(tags[..|tags| - 1], effect).Then(tags[|tags| - 1])
  }

  /** What decides whether the last validation succeeded, failed or was undone. */
  predicate SetsResult(tag: Tag) {
    tag == TagValidate || tag == TagValidationFailed || tag == TagInvalidate
  }

  /**
   Two states instead of all of them are enough: the composed function gives every state
   the validation and the hazards that the transfers give it one by one, and the result
   too once one of them has set it.
   */
  lemma {:induction false} ComposedEqualsStepwise(tags: seq<Tag>, s: State)
    ensures var whole, stepwise := ThenAll(tags, IDENTITY_EDGE).Apply(s), TransferAll(tags, s);
            && whole.validation == stepwise.validation && whole.hazards == stepwise.hazards
            && ((exists t :: t in tags && SetsResult(t)) ==> whole.result == stepwise.result)
    decreases |tags|
  {
    if tags != [] {
      var k := |tags| - 1;
      ComposedEqualsStepwise(tags[..k], s);
      assert tags == tags[..k] + [tags[k]];
      var effect := ThenAll(tags[..k], IDENTITY_EDGE);
      var summary := if s.IsRequired() then effect.required else effect.proven;
      assert forall h :: s.hazards + (summary.hazards + {h}) == s.hazards + summary.hazards + {h};
    }
  }
}
