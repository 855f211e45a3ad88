/*
 * The position-attaching pass over a policy validator's output: every raw
 * (start, end) offset pair reported for an error or a warning is resolved
 * into a pair of 1-based positions in the policy text; nothing else changes.
 *
 * The validator itself is outside the model; its output is an input here.
 */
module Validate {
  import opened LineColumnFromIndex

  datatype Option<+T> = None | Some(value: T)

  /** Raw offsets into the policy text, as the validator reports them. */
  datatype RawSourceLocation = RawSourceLocation(start: int, end: int)

  datatype RawValidationError = RawValidationError(
    policyId: string,
    error: string,
    sourceLocation: Option<RawSourceLocation>)

  datatype RawValidationWarning = RawValidationWarning(
    policyId: string,
    warning: string,
    sourceLocation: Option<RawSourceLocation>)

  /** What the validator returns for one policy set. */
  datatype RawValidateOutput = RawValidateOutput(
    schemaErrors: seq<string>,
    validationErrors: seq<RawValidationError>,
    validationWarnings: seq<RawValidationWarning>)

  datatype SourceLocation = SourceLocation(start: LineColumn, end: LineColumn)

  datatype ValidationError = ValidationError(
    policyId: string,
    sourceLocation: Option<SourceLocation>,
    error: string)

  datatype ValidationWarning = ValidationWarning(
    policyId: string,
    sourceLocation: Option<SourceLocation>,
    warning: string)

  datatype ValidateOutput = ValidateOutput(
    schemaErrors: seq<string>,
    validationErrors: seq<ValidationError>,
    validationWarnings: seq<ValidationWarning>)

  /** A position query that may fail, such as the index method of one finder. */
  type Resolver = int -> Result<LineColumn>

  /** The queries of the one finder built for `doc`. */
  function DocumentResolver(doc: string): (index: Resolver) {
    o => Resolve(doc, o)
  }

  // ---------------------------------------------------------------------
  // Mapping with failure: the first failing element aborts the whole map,
  // as an exception thrown inside Array.prototype.map does.
  // ---------------------------------------------------------------------

  function MapAll<A, B>(f: A -> Result<B>, xs: seq<A>): (r: Result<seq<B>>)
    ensures r.Ok? <==> forall i :: 0 <= i < |xs| ==> f(xs[i]).Ok?
    ensures r.Ok? ==> |r.value| == |xs| && forall i :: 0 <= i < |xs| ==> r.value[i] == f(xs[i]).value
    ensures r.Err? ==> exists i :: 0 <= i < |xs| && f(xs[i]) == Err(r.error) &&
                                  forall j :: 0 <= j < i ==> f(xs[j]).Ok?
  {
    if xs == [] then Ok([])
    else
      match f(xs[0])
      case Err(e) => Err(e)
      case Ok(y) =>
        match MapAll(f, xs[1..])
        case Err(e) => Err(e)
        case Ok(ys) => Ok([y] + ys)
  }

  // ---------------------------------------------------------------------
  // One entry
  // ---------------------------------------------------------------------

  /** No raw location gives no location; otherwise the start, then the end, are resolved. */
  function ResolveLocation(index: Resolver, loc: Option<RawSourceLocation>): (r: Result<Option<SourceLocation>>) {
    match loc
    case None => Ok(None)
    case Some(raw) =>
      match index(raw.start)
      case Err(e) => Err(e)
      case Ok(start) =>
        match index(raw.end)
        case Err(e) => Err(e)
        case Ok(end) => Ok(Some(SourceLocation(start, end)))
  }

  /** `{ ...e, sourceLocation }` for an error. */
  function ResolveError(index: Resolver, e: RawValidationError): (r: Result<ValidationError>) {
    match ResolveLocation(index, e.sourceLocation)
    case Err(x) => Err(x)
    case Ok(loc) => Ok(ValidationError(e.policyId, loc, e.error))
  }

  /** `{ ...e, sourceLocation }` for a warning. */
  function ResolveWarning(index: Resolver, w: RawValidationWarning): (r: Result<ValidationWarning>) {
    match ResolveLocation(index, w.sourceLocation)
    case Err(x) => Err(x)
    case Ok(loc) => Ok(ValidationWarning(w.policyId, loc, w.warning))
  }

  // ---------------------------------------------------------------------
  // What a correctly resolved entry looks like, stated against the document
  // ---------------------------------------------------------------------

  /** Both offsets of a raw location, when there is one, lie within the document. */
  predicate LocationInRange(doc: string, loc: Option<RawSourceLocation>) {
    loc.None? || (0 <= loc.value.start <= |doc| && 0 <= loc.value.end <= |doc|)
  }

  /** `loc` is `raw` with both ends resolved in `doc`, or absent when `raw` is. */
  predicate LocationResolved(doc: string, raw: Option<RawSourceLocation>, loc: Option<SourceLocation>) {
    match raw
    case None => loc.None?
    case Some(r) =>
      && loc.Some?
      && Resolve(doc, r.start) == Ok(loc.value.start)
      && Resolve(doc, r.end) == Ok(loc.value.end)
  }

  predicate ErrorResolved(doc: string, raw: RawValidationError, e: ValidationError) {
    e.policyId == raw.policyId && e.error == raw.error &&
    LocationResolved(doc, raw.sourceLocation, e.sourceLocation)
  }

  predicate WarningResolved(doc: string, raw: RawValidationWarning, w: ValidationWarning) {
    w.policyId == raw.policyId && w.warning == raw.warning &&
    LocationResolved(doc, raw.sourceLocation, w.sourceLocation)
  }

  /** Every located error and warning of `raw` lies within the document. */
  predicate AllInRange(doc: string, raw: RawValidateOutput) {
    && (forall i :: 0 <= i < |raw.validationErrors| ==>
          LocationInRange(doc, raw.validationErrors[i].sourceLocation))
    && (forall i :: 0 <= i < |raw.validationWarnings| ==>
          LocationInRange(doc, raw.validationWarnings[i].sourceLocation))
  }

  /** Each error resolves exactly when its location is in range, and then correctly. */
  lemma ErrorsResolve(doc: string, errors: seq<RawValidationError>)
    ensures forall i :: 0 <= i < |errors| ==>
      var r := ResolveError(DocumentResolver(doc), errors[i]);
      && (r.Ok? <==> LocationInRange(doc, errors[i].sourceLocation))
      && (r.Ok? ==> ErrorResolved(doc, errors[i], r.value))
  {
  }

  /** Each warning resolves exactly when its location is in range, and then correctly. */
  lemma WarningsResolve(doc: string, warnings: seq<RawValidationWarning>)
    ensures forall i :: 0 <= i < |warnings| ==>
      var r := ResolveWarning(DocumentResolver(doc), warnings[i]);
      && (r.Ok? <==> LocationInRange(doc, warnings[i].sourceLocation))
      && (r.Ok? ==> WarningResolved(doc, warnings[i], r.value))
  {
  }

  // ---------------------------------------------------------------------
  // The pass
  // ---------------------------------------------------------------------

  /**
   * validatePolicySet after the validator has run: one resolver for the
   * policy text, errors mapped first and then warnings, schema errors passed
   * through. A failing query fails the whole call.
   */
  function ValidatePolicySet(policySet: string, raw: RawValidateOutput): (r: Result<ValidateOutput>)
    ensures r.Ok? <==> AllInRange(policySet, raw)
    ensures r.Ok? ==>
      && r.value.schemaErrors == raw.schemaErrors
      && |r.value.validationErrors| == |raw.validationErrors|
      && |r.value.validationWarnings| == |raw.validationWarnings|
      && (forall i :: 0 <= i < |raw.validationErrors| ==>
            ErrorResolved(policySet, raw.validationErrors[i], r.value.validationErrors[i]))
      && (forall i :: 0 <= i < |raw.validationWarnings| ==>
            WarningResolved(policySet, raw.validationWarnings[i], r.value.validationWarnings[i]))
  {
    var index := DocumentResolver(policySet);
    ErrorsResolve(policySet, raw.validationErrors);
    WarningsResolve(policySet, raw.validationWarnings);
    var errors := MapAll(e => ResolveError(index, e), raw.validationErrors);
    var warnings := MapAll(w => ResolveWarning(index, w), raw.validationWarnings);
    match errors
    case Err(e) => Err(e)
    case Ok(es) =>
      match warnings
      case Err(e) => Err(e)
      case Ok(ws) => Ok(ValidateOutput(raw.schemaErrors, es, ws))
  }

  // ---------------------------------------------------------------------
  // Properties of the pass
  // ---------------------------------------------------------------------

  /** Resolving `loc` in `doc` fails with `err`: at its start, or else at its end. */
  predicate FailsWith(doc: string, loc: Option<RawSourceLocation>, err: IndexError) {
    && loc.Some?
    && (|| Resolve(doc, loc.value.start) == Err(err)
        || (Resolve(doc, loc.value.start).Ok? && Resolve(doc, loc.value.end) == Err(err)))
  }

  /**
   * A failure is the first failing query in evaluation order: errors before
   * warnings, entries in order, the start of a location before its end.
   */
  lemma ValidatePolicySetFailure(policySet: string, raw: RawValidateOutput)
    requires ValidatePolicySet(policySet, raw).Err?
    ensures var err := ValidatePolicySet(policySet, raw).error;
      || (exists i :: 0 <= i < |raw.validationErrors| &&
            FailsWith(policySet, raw.validationErrors[i].sourceLocation, err) &&
            forall j :: 0 <= j < i ==> LocationInRange(policySet, raw.validationErrors[j].sourceLocation))
      || ((forall j :: 0 <= j < |raw.validationErrors| ==>
             LocationInRange(policySet, raw.validationErrors[j].sourceLocation)) &&
          exists i :: 0 <= i < |raw.validationWarnings| &&
            FailsWith(policySet, raw.validationWarnings[i].sourceLocation, err) &&
            forall j :: 0 <= j < i ==> LocationInRange(policySet, raw.validationWarnings[j].sourceLocation))
  {
    var index := DocumentResolver(policySet);
    var err := ValidatePolicySet(policySet, raw).error;
    ErrorsResolve(policySet, raw.validationErrors);
    WarningsResolve(policySet, raw.validationWarnings);
    var errors := MapAll(e => ResolveError(index, e), raw.validationErrors);
    if errors.Err? {
      var i :| 0 <= i < |raw.validationErrors| && ResolveError(index, raw.validationErrors[i]) == Err(errors.error) &&
               forall j :: 0 <= j < i ==> ResolveError(index, raw.validationErrors[j]).Ok?;
      assert FailsWith(policySet, raw.validationErrors[i].sourceLocation, err);
    } else {
      var warnings := MapAll(w => ResolveWarning(index, w), raw.validationWarnings);
      var i :| 0 <= i < |raw.validationWarnings| && ResolveWarning(index, raw.validationWarnings[i]) == Err(warnings.error) &&
               forall j :: 0 <= j < i ==> ResolveWarning(index, raw.validationWarnings[j]).Ok?;
      assert FailsWith(policySet, raw.validationWarnings[i].sourceLocation, err);
    }
  }

  /** A raw range that is present and well-formed: start <= end. */
  predicate WellFormed(loc: Option<RawSourceLocation>) {
    loc.Some? && loc.value.start <= loc.value.end
  }

  /** A resolved range that, when present, does not end before it starts. */
  predicate Ordered(loc: Option<SourceLocation>) {
    loc.Some? ==> AtOrBefore(loc.value.start, loc.value.end)
  }

  /** A well-formed raw range never resolves to an end before its start. */
  lemma ResolvedRangesOrdered(policySet: string, raw: RawValidateOutput)
    requires ValidatePolicySet(policySet, raw).Ok?
    ensures var out := ValidatePolicySet(policySet, raw).value;
      && (forall i :: 0 <= i < |raw.validationErrors| && WellFormed(raw.validationErrors[i].sourceLocation) ==>
            Ordered(out.validationErrors[i].sourceLocation))
      && (forall i :: 0 <= i < |raw.validationWarnings| && WellFormed(raw.validationWarnings[i].sourceLocation) ==>
            Ordered(out.validationWarnings[i].sourceLocation))
  {
    var out := ValidatePolicySet(policySet, raw).value;
    forall i | 0 <= i < |raw.validationErrors| && WellFormed(raw.validationErrors[i].sourceLocation)
      ensures Ordered(out.validationErrors[i].sourceLocation)
    {
      var loc := raw.validationErrors[i].sourceLocation.value;
      assert LocationInRange(policySet, raw.validationErrors[i].sourceLocation);
      ResolveMonotone(policySet, loc.start, loc.end);
    }
    forall i | 0 <= i < |raw.validationWarnings| && WellFormed(raw.validationWarnings[i].sourceLocation)
      ensures Ordered(out.validationWarnings[i].sourceLocation)
    {
      var loc := raw.validationWarnings[i].sourceLocation.value;
      assert LocationInRange(policySet, raw.validationWarnings[i].sourceLocation);
      ResolveMonotone(policySet, loc.start, loc.end);
    }
  }

  // ---------------------------------------------------------------------
  // Worked examples
  // ---------------------------------------------------------------------

  /** A one-line policy the validator rejects, 55 characters long. */
  function InvalidPolicy(): string {
    "permit(principal," + "action == " + "Action::\"Invalid\"," + "resource);"
  }

  /** The validator's report for InvalidPolicy: every entry spans the whole text. */
  function InvalidPolicyReport(): RawValidateOutput {
    var whole := Some(RawSourceLocation(0, 55));
    RawValidateOutput(
      [],
      [ RawValidationError("policy0", "unrecognized action `Action::\"Invalid\"`", whole),
        RawValidationError("policy0", "unable to find an applicable action given the policy head constraints", whole) ],
      [ RawValidationWarning("policy0", "policy is impossible: the policy expression evaluates to false for all valid requests", whole) ])
  }

  /** Offsets 0 and 55 of the one-line policy: its first column and just past its last. */
  lemma InvalidPolicyOffsets()
    ensures |InvalidPolicy()| == 55
    ensures Resolve(InvalidPolicy(), 0) == Ok(LineColumn(1, 1))
    ensures Resolve(InvalidPolicy(), 55) == Ok(LineColumn(1, 56))
  {
    var doc := InvalidPolicy();
    var p1, p2, p3, p4 := "permit(principal,", "action == ", "Action::\"Invalid\",", "resource);";
    LineStartsAppendText([], p1);
    LineStartsAppendText(p1, p2);
    LineStartsAppendText(p1 + p2, p3);
    LineStartsAppendText(p1 + p2 + p3, p4);
    assert [] + p1 == p1;
    assert doc == p1 + p2 + p3 + p4;
    ResolveAtLowerIndex(doc, 0, 0);
    ResolveAtLowerIndex(doc, 55, 0);
  }

  /** The range (0, 55) becomes line 1, columns 1 to 56 in every entry of the report. */
  lemma InvalidPolicyExample()
    ensures var whole := Some(SourceLocation(LineColumn(1, 1), LineColumn(1, 56)));
      ValidatePolicySet(InvalidPolicy(), InvalidPolicyReport()) == Ok(ValidateOutput(
        [],
        [ ValidationError("policy0", whole, "unrecognized action `Action::\"Invalid\"`"),
          ValidationError("policy0", whole, "unable to find an applicable action given the policy head constraints") ],
        [ ValidationWarning("policy0", whole, "policy is impossible: the policy expression evaluates to false for all valid requests") ]))
  {
    InvalidPolicyOffsets();
    var doc, raw := InvalidPolicy(), InvalidPolicyReport();
    assert AllInRange(doc, raw);
    var out := ValidatePolicySet(doc, raw).value;
    var whole := Some(SourceLocation(LineColumn(1, 1), LineColumn(1, 56)));
    assert ErrorResolved(doc, raw.validationErrors[0], out.validationErrors[0]);
    assert out.validationErrors[0].sourceLocation == whole;
    assert ErrorResolved(doc, raw.validationErrors[1], out.validationErrors[1]);
    assert out.validationErrors[1].sourceLocation == whole;
    assert WarningResolved(doc, raw.validationWarnings[0], out.validationWarnings[0]);
    assert out.validationWarnings[0].sourceLocation == whole;
    assert out.validationErrors == [out.validationErrors[0], out.validationErrors[1]];
    assert out.validationWarnings == [out.validationWarnings[0]];
  }

  /** A policy with no findings gives an empty report. */
  lemma ValidPolicyExample()
    ensures ValidatePolicySet("permit(principal,action,resource);", RawValidateOutput([], [], []))
              == Ok(ValidateOutput([], [], []))
  {
  }
}
