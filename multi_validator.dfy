/** The AuRa multi-validator: the chainspec lists validator sets by the block number they
    take over at, and the multi-validator keeps one of them current, switching as blocks
    are processed and finalized. The sub-validators themselves, the block tree and the
    finalization manager are outside the model; what they report is passed in. */
module MultiValidatorModel {
  import opened Common

  /** `AuRaParameters.ValidatorType` */
  datatype ValidatorType = List | Contract | ReportingContract | Multi

  /** `AuRaParameters.Validator`: its type, the transitions of a `Multi` validator (null for
      the other types), and every other chainspec field (addresses, contract address)
      folded into one value. */
  datatype Validator = Validator(validatorType: ValidatorType, validators: Option<seq<Transition>>, settings: nat)

  /** One entry of the `Validators` dictionary: the block the validator set takes over at. */
  datatype Transition = Transition(block: int, validator: Validator)

  /** The sub-validator `_validatorFactory.CreateValidatorProcessor(validator, startBlock)` builds. */
  datatype Processor = Processor(validator: Validator, startBlock: int)

  /** `_currentValidator` and `_currentValidatorInfo`. */
  datatype Selection = Selection(current: Option<Processor>, info: Option<Validator>)

  /** What the multi-validator is configured with: `ImmediateTransitions`, the type-level
      `CanChangeImmediately` extension, and the dictionary entries in enumeration order. */
  datatype Config = Config(
    immediateTransitions: bool,
    typeChangesImmediately: ValidatorType -> bool,
    transitions: seq<Transition>)

  /** A dictionary has one entry per key. */
  predicate DistinctKeys(transitions: seq<Transition>) {
    forall i, j :: 0 <= i < j < |transitions| ==> transitions[i].block != transitions[j].block
  }

  // ---------------------------------------------------------------------------
  // Construction.

  datatype ConstructionError = NullValidator | WrongValidatorType | NullParameters | EmptyValidators

  /** The argument checks of the constructor, in order; `None` when all pass. */
  function ConstructionCheck(validator: Option<Validator>, immediateTransitions: Option<bool>): (r: Option<ConstructionError>)
    ensures validator.None? ==> r == Some(NullValidator)
    ensures validator.Some? && validator.value.validatorType != Multi ==> r == Some(WrongValidatorType)
    ensures validator.Some? && validator.value.validatorType == Multi && immediateTransitions.None? ==> r == Some(NullParameters)
    ensures && validator.Some? && validator.value.validatorType == Multi && immediateTransitions.Some?
            && (validator.value.validators.None? || |validator.value.validators.value| == 0) ==>
      r == Some(EmptyValidators)
    ensures r.None? <==>
      && validator.Some? && validator.value.validatorType == Multi && immediateTransitions.Some?
      && validator.value.validators.Some? && |validator.value.validators.value| > 0
  {
    if validator.None? then Some(NullValidator)
    else if validator.value.validatorType != Multi then Some(WrongValidatorType)
    else if immediateTransitions.None? then Some(NullParameters)
    else if validator.value.validators.None? || |validator.value.validators.value| == 0 then Some(EmptyValidators)
    else None
  }

  // ---------------------------------------------------------------------------
  // Choosing an entry.

  /** `CanChangeValidatorImmediately` */
  predicate CanChangeImmediately(c: Config, v: Validator): (r: bool)
    ensures c.immediateTransitions ==> r
    ensures !c.immediateTransitions ==> (r <==> c.typeChangesImmediately(v.validatorType))
  {
    c.immediateTransitions || c.typeChangesImmediately(v.validatorType)
  }

  /** `v` is the validator of one of the configured entries. */
  predicate Configured(c: Config, v: Validator) {
    exists i :: 0 <= i < |c.transitions| && c.transitions[i].validator == v
  }

  /** The condition in `TryGetLastValidator`'s loop. */
  predicate Qualifies(c: Config, t: Transition, blockNumber: int, headNumber: int) {
    t.block <= blockNumber || (t.block <= headNumber && CanChangeImmediately(c, t.validator))
  }

  /** The last entry of `transitions`, in order, that qualifies for `blockNumber`. */
  function LastQualifying(c: Config, transitions: seq<Transition>, blockNumber: int, headNumber: int): (r: Option<Transition>)
    ensures r.None? <==> forall i :: 0 <= i < |transitions| ==> !Qualifies(c, transitions[i], blockNumber, headNumber)
    ensures r.Some? ==> exists i :: (
      && 0 <= i < |transitions| && transitions[i] == r.value
      && Qualifies(c, r.value, blockNumber, headNumber)
      && forall j :: i < j < |transitions| ==> !Qualifies(c, transitions[j], blockNumber, headNumber))
  {
    if transitions == [] then None
    else
      var last := transitions[|transitions| - 1];
      if Qualifies(c, last, blockNumber, headNumber) then Some(last)
      else LastQualifying(c, transitions[..|transitions| - 1], blockNumber, headNumber)
  }

  /** `TryGetValidator`: the dictionary lookup by exact block number. */
  function ValidatorAt(transitions: seq<Transition>, blockNumber: int): (r: Option<Validator>)
    ensures r.None? <==> forall i :: 0 <= i < |transitions| ==> transitions[i].block != blockNumber
    ensures r.Some? ==> Transition(blockNumber, r.value) in transitions
  {
    if transitions == [] then None
    else if transitions[0].block == blockNumber then Some(transitions[0].validator)
    else ValidatorAt(transitions[1..], blockNumber)
  }

  /** With one entry per key, the lookup finds the validator of the entry with that key. */
  lemma {:induction false} ValidatorAtFinds(transitions: seq<Transition>, t: Transition)
    requires DistinctKeys(transitions)
    requires t in transitions
    ensures ValidatorAt(transitions, t.block) == Some(t.validator)
  {
    if transitions[0] != t {
      assert t in transitions[1..];
      assert DistinctKeys(transitions[1..]) by {
        forall i, j | 0 <= i < j < |transitions[1..]|
          ensures transitions[1..][i].block != transitions[1..][j].block
        {
          assert transitions[1..][i] == transitions[i + 1] && transitions[1..][j] == transitions[j + 1];
        }
      }
      var k :| 0 <= k < |transitions| && transitions[k] == t;
      assert k > 0;
      ValidatorAtFinds(transitions[1..], t);
    }
  }

  // ---------------------------------------------------------------------------
  // Switching.

  /** `CreateValidator`: a new sub-validator starting at the block after the one the change
      was finalized at, or at that block itself with immediate transitions. */
  function CreateValidator(c: Config, finalizedAtBlockNumber: int, v: Validator): (r: Processor)
    ensures r.validator == v
    ensures r.startBlock >= finalizedAtBlockNumber
    ensures r.startBlock == finalizedAtBlockNumber <==> c.immediateTransitions
    ensures !c.immediateTransitions ==> r.startBlock == finalizedAtBlockNumber + 1
  {
    Processor(v, finalizedAtBlockNumber + (if c.immediateTransitions then 0 else 1))
  }

  /** `SetCurrentValidator`: nothing happens when `v` already is the current validator's
      info; otherwise a new sub-validator for `v` replaces the current one. */
  function SwitchTo(c: Config, s: Selection, finalizedAtBlockNumber: int, v: Validator): (r: Selection)
    ensures r.info == Some(v)
    ensures s.info == Some(v) ==> r == s
    ensures s.info != Some(v) ==> r.current == Some(CreateValidator(c, finalizedAtBlockNumber, v))
  {
    if s.info == Some(v) then s
    else Selection(Some(CreateValidator(c, finalizedAtBlockNumber, v)), Some(v))
  }

  /** The current sub-validator is the one built for the current info. */
  predicate Coherent(s: Selection) {
    && (s.current.Some? <==> s.info.Some?)
    && (s.current.Some? ==> s.current.value.validator == s.info.value)
  }

  lemma SwitchToKeepsCoherent(c: Config, s: Selection, finalizedAtBlockNumber: int, v: Validator)
    requires Coherent(s)
    ensures Coherent(SwitchTo(c, s, finalizedAtBlockNumber, v))
  {
  }

  /** Switching twice to the same validator is switching once. */
  lemma SwitchToIdempotent(c: Config, s: Selection, first: int, second: int, v: Validator)
    ensures SwitchTo(c, SwitchTo(c, s, first, v), second, v) == SwitchTo(c, s, first, v)
  {
  }

  /** The selection `EnsureCorrectValidatorsForBlock` leaves behind, and what it returns. */
  function EnsureSelection(c: Config, s: Selection, blockNumber: int, headNumber: int, forceChange: bool): (r: (bool, Selection))
    ensures var last := LastQualifying(c, c.transitions, blockNumber, headNumber);
      && (r.0 <==> last.None? || CanChangeImmediately(c, last.value.validator) || forceChange)
      && (last.None? || !r.0 ==> r.1 == s)
      && (last.Some? && r.0 ==> r.1 == SwitchTo(c, s, last.value.block, last.value.validator))
  {
    match LastQualifying(c, c.transitions, blockNumber, headNumber)
    case None => (true, s)
    case Some(t) =>
      if CanChangeImmediately(c, t.validator) || forceChange then (true, SwitchTo(c, s, t.block, t.validator))
      else (false, s)
  }

  /** The fallback after a jump to a change `t` that must wait for finalization: with no
      entry qualifying before it, `t` is switched to; otherwise the entry before it is,
      and then `t` too once its level is finalized, at that level. */
  function DeferredSelection(c: Config, s: Selection, t: Transition, headNumber: int,
                             finalizedLevel: int -> Option<int>): (r: Selection)
    ensures Coherent(s) ==> Coherent(r)
    ensures var before := LastQualifying(c, c.transitions, t.block - 1, headNumber);
      && (before.None? || finalizedLevel(t.block).Some? ==> r.info == Some(t.validator))
      && (before.Some? && finalizedLevel(t.block).None? ==> r.info == Some(before.value.validator) && Configured(c, r.info.value))
  {
    match LastQualifying(c, c.transitions, t.block - 1, headNumber)
    case None => SwitchTo(c, s, t.block, t.validator)
    case Some(p) =>
      var fallback := SwitchTo(c, s, p.block, p.validator);
      match finalizedLevel(t.block)
      case None => fallback
      case Some(f) => SwitchTo(c, fallback, f, t.validator)
  }

  /** `EnsureCorrectValidatorsForBlockWhenProcessing`: on a jump (the previous block is not
      the last one processed) the selection is recomputed for the previous block, falling
      back, for a change that must wait for finalization, to the entry before it and then
      to the change itself once its level is finalized; on a consecutive block only an
      entry at exactly this block that can change immediately switches. */
  function ProcessingSelection(c: Config, s: Selection, lastProcessedBlock: int, blockNumber: int,
                               headNumber: int, finalizedLevel: int -> Option<int>): (r: Selection)
    ensures Coherent(s) ==> Coherent(r)
    ensures r.info == s.info || (r.info.Some? && Configured(c, r.info.value))
  {
    var previous := blockNumber - 1;
    if previous != lastProcessedBlock then
      match LastQualifying(c, c.transitions, previous, headNumber)
      case None => s
      case Some(t) =>
        if CanChangeImmediately(c, t.validator) then SwitchTo(c, s, t.block, t.validator)
        else DeferredSelection(c, s, t, headNumber, finalizedLevel)
    else
      match ValidatorAt(c.transitions, blockNumber)
      case Some(v) => if CanChangeImmediately(c, v) then SwitchTo(c, s, blockNumber, v) else s
      case None => s
  }

  /** On consecutive blocks the selection changes only when an entry sits at exactly this
      block and can change immediately, and it then becomes that entry's validator. */
  lemma ConsecutiveSwitchOnlyAtImmediateEntry(c: Config, s: Selection, blockNumber: int, headNumber: int,
                                              finalizedLevel: int -> Option<int>)
    requires DistinctKeys(c.transitions)
    ensures var r := ProcessingSelection(c, s, blockNumber - 1, blockNumber, headNumber, finalizedLevel);
      r != s ==> exists t :: (
        && t in c.transitions && t.block == blockNumber && CanChangeImmediately(c, t.validator)
        && r.info == Some(t.validator))
  {
    var r := ProcessingSelection(c, s, blockNumber - 1, blockNumber, headNumber, finalizedLevel);
    if r != s {
      var v := ValidatorAt(c.transitions, blockNumber).value;
      assert Transition(blockNumber, v) in c.transitions;
    }
  }

  /** On consecutive blocks an entry at exactly this block that can change immediately
      becomes current. */
  lemma ConsecutiveImmediateEntrySwitches(c: Config, s: Selection, t: Transition, blockNumber: int,
                                          headNumber: int, finalizedLevel: int -> Option<int>)
    requires DistinctKeys(c.transitions)
    requires t in c.transitions && t.block == blockNumber && CanChangeImmediately(c, t.validator)
    ensures ProcessingSelection(c, s, blockNumber - 1, blockNumber, headNumber, finalizedLevel).info == Some(t.validator)
  {
    ValidatorAtFinds(c.transitions, t);
  }

  /** On a jump where no entry qualifies for the previous block, nothing changes. */
  lemma JumpWithNothingQualifyingKeeps(c: Config, s: Selection, lastProcessedBlock: int, blockNumber: int,
                                       headNumber: int, finalizedLevel: int -> Option<int>)
    requires blockNumber - 1 != lastProcessedBlock
    requires LastQualifying(c, c.transitions, blockNumber - 1, headNumber).None?
    ensures ProcessingSelection(c, s, lastProcessedBlock, blockNumber, headNumber, finalizedLevel) == s
  {
  }

  /** On a jump, an entry that can change immediately is switched to outright. */
  lemma JumpToImmediateEntry(c: Config, s: Selection, lastProcessedBlock: int, blockNumber: int,
                             headNumber: int, finalizedLevel: int -> Option<int>)
    requires blockNumber - 1 != lastProcessedBlock
    requires var last := LastQualifying(c, c.transitions, blockNumber - 1, headNumber);
      last.Some? && CanChangeImmediately(c, last.value.validator)
    ensures ProcessingSelection(c, s, lastProcessedBlock, blockNumber, headNumber, finalizedLevel).info
         == Some(LastQualifying(c, c.transitions, blockNumber - 1, headNumber).value.validator)
  {
  }

  /** On a jump to a change that waits for finalization, the change is switched to only
      when nothing qualifies before it or its level is finalized; otherwise the entry
      before it becomes current. */
  lemma JumpToDeferredEntry(c: Config, s: Selection, lastProcessedBlock: int, blockNumber: int,
                            headNumber: int, finalizedLevel: int -> Option<int>)
    requires blockNumber - 1 != lastProcessedBlock
    requires var last := LastQualifying(c, c.transitions, blockNumber - 1, headNumber);
      last.Some? && !CanChangeImmediately(c, last.value.validator)
    ensures var t := LastQualifying(c, c.transitions, blockNumber - 1, headNumber).value;
      var before := LastQualifying(c, c.transitions, t.block - 1, headNumber);
      var r := ProcessingSelection(c, s, lastProcessedBlock, blockNumber, headNumber, finalizedLevel);
      && (before.None? || finalizedLevel(t.block).Some? ==> r.info == Some(t.validator))
      && (before.Some? && finalizedLevel(t.block).None? ==> r.info == Some(before.value.validator))
  {
  }

  /** The finalized blocks that carry a change waiting for finalization, folded over by
      `OnBlocksFinalized`: each such change is applied at the finalizing block. */
  function ApplyFinalized(c: Config, s: Selection, finalizedNumbers: seq<int>, finalizingNumber: int): (r: Selection)
    ensures Coherent(s) ==> Coherent(r)
    ensures r.info == s.info || (r.info.Some? && Configured(c, r.info.value) && !CanChangeImmediately(c, r.info.value))
    decreases |finalizedNumbers|
  {
    if finalizedNumbers == [] then s
    else
      var before := ApplyFinalized(c, s, finalizedNumbers[..|finalizedNumbers| - 1], finalizingNumber);
      match ValidatorAt(c.transitions, finalizedNumbers[|finalizedNumbers| - 1])
      case Some(v) => if !CanChangeImmediately(c, v) then SwitchTo(c, before, finalizingNumber, v) else before
      case None => before
  }

  /** Block `n` carries a change that must wait for finalization. */
  predicate Deferred(c: Config, n: int) {
    ValidatorAt(c.transitions, n).Some? && !CanChangeImmediately(c, ValidatorAt(c.transitions, n).value)
  }

  /** The validator of the last finalized block that carries a deferred change. */
  function LastDeferred(c: Config, finalizedNumbers: seq<int>): (r: Option<Validator>)
    ensures r.Some? ==> !CanChangeImmediately(c, r.value)
    ensures r.None? <==> forall i :: 0 <= i < |finalizedNumbers| ==> !Deferred(c, finalizedNumbers[i])
    ensures r.Some? ==> exists i :: (
      && 0 <= i < |finalizedNumbers| && ValidatorAt(c.transitions, finalizedNumbers[i]) == r
      && Deferred(c, finalizedNumbers[i])
      && forall j :: i < j < |finalizedNumbers| ==> !Deferred(c, finalizedNumbers[j]))
    decreases |finalizedNumbers|
  {
    if finalizedNumbers == [] then None
    else
      var last := |finalizedNumbers| - 1;
      var hit := ValidatorAt(c.transitions, finalizedNumbers[last]);
      if Deferred(c, finalizedNumbers[last]) then hit
      else LastDeferred(c, finalizedNumbers[..last])
  }

  /** After finalization the current info is the last deferred change among the finalized
      blocks, or what it was when there is none. */
  lemma {:induction false} FinalizationSwitchesToLastDeferred(c: Config, s: Selection, finalizedNumbers: seq<int>, finalizingNumber: int)
    ensures ApplyFinalized(c, s, finalizedNumbers, finalizingNumber).info
         == if LastDeferred(c, finalizedNumbers).Some? then LastDeferred(c, finalizedNumbers) else s.info
    ensures LastDeferred(c, finalizedNumbers).None? ==> ApplyFinalized(c, s, finalizedNumbers, finalizingNumber) == s
    decreases |finalizedNumbers|
  {
    if finalizedNumbers != [] {
      FinalizationSwitchesToLastDeferred(c, s, finalizedNumbers[..|finalizedNumbers| - 1], finalizingNumber);
    }
  }

  /** A sub-validator created on finalization starts at the finalizing block, plus one. */
  lemma {:induction false} FinalizedChangeStartsAfterFinalizingBlock(c: Config, s: Selection, finalizedNumbers: seq<int>, finalizingNumber: int)
    ensures var r := ApplyFinalized(c, s, finalizedNumbers, finalizingNumber);
      r.current != s.current ==> r.current.Some? && r.current.value.startBlock == finalizingNumber + 1
    decreases |finalizedNumbers|
  {
    if finalizedNumbers != [] {
      FinalizedChangeStartsAfterFinalizingBlock(c, s, finalizedNumbers[..|finalizedNumbers| - 1], finalizingNumber);
    }
  }

  /** With immediate transitions every change is applied while processing, and
      finalization switches nothing. */
  lemma {:induction false} ImmediateTransitionsIgnoreFinalization(c: Config, s: Selection, finalizedNumbers: seq<int>, finalizingNumber: int)
    requires c.immediateTransitions
    ensures ApplyFinalized(c, s, finalizedNumbers, finalizingNumber) == s
    decreases |finalizedNumbers|
  {
    if finalizedNumbers != [] {
      ImmediateTransitionsIgnoreFinalization(c, s, finalizedNumbers[..|finalizedNumbers| - 1], finalizingNumber);
    }
  }

  // ---------------------------------------------------------------------------
  // The validator processor.

  class MultiValidator {
    const config: Config
    /** `_currentValidator` */
    var current: Option<Processor>
    /** `_currentValidatorInfo` */
    var currentInfo: Option<Validator>
    /** `_lastProcessedBlock` */
    var lastProcessedBlock: int
    /** `_isProducing` */
    var isProducing: bool
    /** Whether `_blockFinalizationManager` is set. */
    var hasFinalizationManager: bool

    ghost predicate Valid()
      reads this
    {
      DistinctKeys(config.transitions) && Coherent(Active())
    }

    /** The selection the fields hold. */
    function Active(): Selection
      reads this
    {
      Selection(current, currentInfo)
    }

    /** The constructor, for arguments that pass its checks. */
    constructor (validator: Option<Validator>, immediateTransitions: Option<bool>, typeChangesImmediately: ValidatorType -> bool)
      requires ConstructionCheck(validator, immediateTransitions).None?
      requires DistinctKeys(validator.value.validators.value)
      ensures Valid()
      ensures config == Config(immediateTransitions.value, typeChangesImmediately, validator.value.validators.value)
      ensures |config.transitions| > 0
      ensures current.None? && currentInfo.None? && lastProcessedBlock == 0
      ensures !isProducing && !hasFinalizationManager
    {
      config := Config(immediateTransitions.value, typeChangesImmediately, validator.value.validators.value);
      current := None;
      currentInfo := None;
      lastProcessedBlock := 0;
      isProducing := false;
      hasFinalizationManager := false;
    }

    /** `TryGetLastValidator`; `headNumber` is `_blockTree.Head?.Number ?? 0`. */
    method TryGetLastValidator(blockNum: int, headNumber: int) returns (found: bool, validator: Option<Transition>)
      ensures validator == LastQualifying(config, config.transitions, blockNum, headNumber)
      ensures found <==> exists i :: 0 <= i < |config.transitions| && Qualifies(config, config.transitions[i], blockNum, headNumber)
      ensures found == validator.Some?
    {
      validator := None;
      found := false;
      var i := 0;
      while i < |config.transitions|
        invariant 0 <= i <= |config.transitions|
        invariant validator == LastQualifying(config, config.transitions[..i], blockNum, headNumber)
        invariant found == validator.Some?
      {
        var kvp := config.transitions[i];
        assert config.transitions[..i + 1][..i] == config.transitions[..i];
        if kvp.block <= blockNum || (kvp.block <= headNumber && CanChangeImmediately(config, kvp.validator)) {
          validator := Some(kvp);
          found := true;
        }
        i := i + 1;
      }
      assert config.transitions[..i] == config.transitions;
    }

    /** `SetCurrentValidator(finalizedAtBlockNumber, validator)` */
    method SetCurrentValidator(finalizedAtBlockNumber: int, validator: Validator)
      requires Valid()
      modifies this
      ensures Valid()
      ensures Active() == SwitchTo(config, old(Active()), finalizedAtBlockNumber, validator)
      ensures lastProcessedBlock == old(lastProcessedBlock) && isProducing == old(isProducing)
      ensures hasFinalizationManager == old(hasFinalizationManager)
    {
      if currentInfo != Some(validator) {
        current := Some(CreateValidator(config, finalizedAtBlockNumber, validator));
        currentInfo := Some(validator);
      }
    }

    /** The private `EnsureCorrectValidatorsForBlock(blockNumber, out validatorInfo, forceChange)`. */
    method EnsureCorrectValidatorsForBlock(blockNumber: int, headNumber: int, forceChange: bool)
      returns (ok: bool, validatorInfo: Option<Transition>)
      requires Valid()
      modifies this
      ensures Valid()
      ensures validatorInfo == LastQualifying(config, config.transitions, blockNumber, headNumber)
      ensures (ok, Active()) == EnsureSelection(config, old(Active()), blockNumber, headNumber, forceChange)
      ensures lastProcessedBlock == old(lastProcessedBlock) && isProducing == old(isProducing)
      ensures hasFinalizationManager == old(hasFinalizationManager)
    {
      var found;
      found, validatorInfo := TryGetLastValidator(blockNumber, headNumber);
      if found {
        if CanChangeImmediately(config, validatorInfo.value.validator) || forceChange {
          SetCurrentValidator(validatorInfo.value.block, validatorInfo.value.validator);
          return true, validatorInfo;
        } else {
          return false, validatorInfo;
        }
      }
      return true, validatorInfo;
    }

    /** `EnsureCorrectValidatorsForBlockWhenProcessing`; `finalizedLevel` stands for the
        finalization manager's `GetFinalizedLevel`. */
    method EnsureCorrectValidatorsForBlockWhenProcessing(blockNumber: int, headNumber: int, finalizedLevel: int -> Option<int>)
      requires Valid()
      modifies this
      ensures Valid()
      ensures Active() == ProcessingSelection(config, old(Active()), old(lastProcessedBlock), blockNumber, headNumber, finalizedLevel)
      ensures lastProcessedBlock == old(lastProcessedBlock) && isProducing == old(isProducing)
      ensures hasFinalizationManager == old(hasFinalizationManager)
    {
      var previousBlockNumber := blockNumber - 1;
      var isNotConsecutive := previousBlockNumber != lastProcessedBlock;
      if isNotConsecutive {
        var ok, validatorInfo := EnsureCorrectValidatorsForBlock(previousBlockNumber, headNumber, false);
        if !ok {
          ApplyDeferredChange(validatorInfo.value, headNumber, finalizedLevel);
        }
      } else {
        var validator := ValidatorAt(config.transitions, blockNumber);
        if validator.Some? {
          if CanChangeImmediately(config, validator.value) {
            SetCurrentValidator(blockNumber, validator.value);
          }
        }
      }
    }

    /** The branch of `EnsureCorrectValidatorsForBlockWhenProcessing` taken when the
        qualifying entry `t` cannot change immediately. */
    method ApplyDeferredChange(t: Transition, headNumber: int, finalizedLevel: int -> Option<int>)
      requires Valid()
      modifies this
      ensures Valid()
      ensures Active() == DeferredSelection(config, old(Active()), t, headNumber, finalizedLevel)
      ensures lastProcessedBlock == old(lastProcessedBlock) && isProducing == old(isProducing)
      ensures hasFinalizationManager == old(hasFinalizationManager)
    {
      var found, previousValidatorInfo := TryGetLastValidator(t.block - 1, headNumber);
      var canSetValidatorAsCurrent := !found;
      var finalizedAtBlockNumber: Option<int> := None;
      if !canSetValidatorAsCurrent {
        SetCurrentValidator(previousValidatorInfo.value.block, previousValidatorInfo.value.validator);
        finalizedAtBlockNumber := finalizedLevel(t.block);
        canSetValidatorAsCurrent := finalizedAtBlockNumber.Some?;
      }
      if canSetValidatorAsCurrent {
        SetCurrentValidator(finalizedAtBlockNumber.GetOr(t.block), t.validator);
      }
    }

    /** `PreProcess`: the selection step is skipped while producing a block. */
    method PreProcess(blockNumber: int, headNumber: int, producing: bool, finalizedLevel: int -> Option<int>)
      requires Valid()
      modifies this
      ensures Valid()
      ensures Active() == if producing then old(Active())
                             else ProcessingSelection(config, old(Active()), old(lastProcessedBlock), blockNumber, headNumber, finalizedLevel)
      ensures lastProcessedBlock == old(lastProcessedBlock) && isProducing == old(isProducing)
      ensures hasFinalizationManager == old(hasFinalizationManager)
    {
      if !producing {
        EnsureCorrectValidatorsForBlockWhenProcessing(blockNumber, headNumber, finalizedLevel);
      }
    }

    /** `PostProcess`: records the block as the last one processed. */
    method PostProcess(blockNumber: int)
      requires Valid()
      modifies this
      ensures Valid()
      ensures lastProcessedBlock == blockNumber
      ensures Active() == old(Active()) && isProducing == old(isProducing)
      ensures hasFinalizationManager == old(hasFinalizationManager)
    {
      lastProcessedBlock := blockNumber;
    }

    /** `OnBlocksFinalized`: the numbers of the finalized headers, in event order, and the
        number of the finalizing block. */
    method OnBlocksFinalized(finalizedNumbers: seq<int>, finalizingNumber: int)
      requires Valid()
      modifies this
      ensures Valid()
      ensures Active() == ApplyFinalized(config, old(Active()), finalizedNumbers, finalizingNumber)
      ensures lastProcessedBlock == old(lastProcessedBlock) && isProducing == old(isProducing)
      ensures hasFinalizationManager == old(hasFinalizationManager)
    {
      ghost var start := Active();
      for i := 0 to |finalizedNumbers|
        invariant Valid()
        invariant Active() == ApplyFinalized(config, start, finalizedNumbers[..i], finalizingNumber)
        invariant lastProcessedBlock == old(lastProcessedBlock) && isProducing == old(isProducing)
        invariant hasFinalizationManager == old(hasFinalizationManager)
      {
        assert finalizedNumbers[..i + 1][..i] == finalizedNumbers[..i];
        var validator := ValidatorAt(config.transitions, finalizedNumbers[i]);
        if validator.Some? && !CanChangeImmediately(config, validator.value) {
          SetCurrentValidator(finalizingNumber, validator.value);
        }
      }
      assert finalizedNumbers[..|finalizedNumbers|] == finalizedNumbers;
    }

    /** `SetFinalizationManager`: `lastFinalizedLevel` is the new manager's
        `LastFinalizedBlockLevel`, or `None` when the manager is null. With a manager the
        current validator is initialised for its last finalized level (`InitCurrentValidator`). */
    method SetFinalizationManager(lastFinalizedLevel: Option<int>, forProducing: bool, headNumber: int)
      requires Valid()
      modifies this
      ensures Valid()
      ensures isProducing == forProducing
      ensures hasFinalizationManager == lastFinalizedLevel.Some?
      ensures lastFinalizedLevel.None? ==> Active() == old(Active()) && lastProcessedBlock == old(lastProcessedBlock)
      ensures lastFinalizedLevel.Some? ==>
        && Active() == EnsureSelection(config, old(Active()), lastFinalizedLevel.value, headNumber, true).1
        && lastProcessedBlock == lastFinalizedLevel.value
    {
      hasFinalizationManager := lastFinalizedLevel.Some?;
      isProducing := forProducing;
      if lastFinalizedLevel.Some? {
        var _, _ := EnsureCorrectValidatorsForBlock(lastFinalizedLevel.value, headNumber, true);
        lastProcessedBlock := lastFinalizedLevel.value;
      }
    }

    /** `IsValidSealer`: `isValidFor` is what the current sub-validator answers. */
    function IsValidSealer(isValidFor: Processor -> bool): (r: bool)
      reads this
      ensures current.None? ==> !r
      ensures current.Some? ==> (r <==> isValidFor(current.value))
    {
      current.Some? && isValidFor(current.value)
    }
  }

  /** Initialising with a forced change always selects the last qualifying entry, if any. */
  lemma ForcedSelectionIsLastQualifying(c: Config, s: Selection, blockNumber: int, headNumber: int)
    ensures var last := LastQualifying(c, c.transitions, blockNumber, headNumber);
      var r := EnsureSelection(c, s, blockNumber, headNumber, true);
      && r.0
      && (last.Some? ==> r.1.info == Some(last.value.validator))
      && (last.None? ==> r.1 == s)
  {
  }
}
