/** Transfers: their states and records, and the pure decisions taken about them. */
module Transfers {
  import opened Wrappers

  type TransferId = nat

  datatype State = Pending | Validating | Transferring | Completed | Failed | Cancelled

  datatype Strategy = Stream | S3 | Direct

  /** The transition table. */
  predicate Edge(from: State, to: State) {
    match from
    case Pending => to == Validating || to == Cancelled
    case Validating => to == Transferring || to == Failed || to == Cancelled
    case Transferring => to == Completed || to == Failed || to == Cancelled
    case _ => false
  }

  predicate IsTerminal(s: State) {
    s == Completed || s == Failed || s == Cancelled
  }

  /** A persistent volume claim: its cluster and name. */
  datatype Endpoint = Endpoint(cluster: string, pvc: string)

  datatype Request = Request(
    source: Endpoint, destination: Endpoint, strategyOverride: Option<string>,
    allowOverwrite: bool, retryMax: Option<int>, createdBy: string)

  datatype Config = Config(retryMaxAttempts: int, s3Configured: bool, hasHub: bool)

  datatype Progress = Progress(bytesTransferred: int, bytesTotal: int, chunksCompleted: int, chunksTotal: int)

  datatype Report = Report(progress: Progress, speed: real, status: string, errorMessage: string)

  /** Why a transfer was marked failed. */
  datatype Failure =
    Invalid(rejection: Rejection) | BadStrategy | SourceCommand | DestinationCommand | Exhausted(message: string)

  datatype Row = Row(
    source: Endpoint, destination: Endpoint, allowOverwrite: bool, state: State, strategy: Option<Strategy>,
    progress: Progress, failure: Option<Failure>, retryCount: int, retryMax: int, createdBy: string,
    createdAt: int, startedAt: Option<int>, completedAt: Option<int>)

  // ---------------------------------------------------------------------------
  // Validation

  /** An answer to a query about a volume: an error, or yes or no. */
  datatype Answer = Unanswered | Says(yes: bool)

  datatype Lookup = Lookup(sourceFound: Answer, destinationFound: Answer, destinationEmpty: Answer)

  datatype Rejection =
    SamePvc | SourceLookupFailed | NoSource | DestinationLookupFailed | NoDestination | EmptyCheckFailed | NotEmpty

  /** What must hold before data may be moved. */
  predicate Safe(req: Request, a: Lookup) {
    && req.source != req.destination
    && a.sourceFound == Says(true)
    && a.destinationFound == Says(true)
    && (a.destinationEmpty == Says(true) || (req.allowOverwrite && a.destinationEmpty == Says(false)))
  }

  /** The first objection wins: the same volume, then the source, the destination, and what the destination holds. */
  function ValidateTransferRequest(req: Request, a: Lookup): (r: Option<Rejection>)
    ensures r.None? <==> Safe(req, a)
    ensures r == Some(SamePvc) <==> req.source == req.destination
    ensures req.source != req.destination ==>
              && (r == Some(SourceLookupFailed) <==> a.sourceFound == Unanswered)
              && (r == Some(NoSource) <==> a.sourceFound == Says(false))
    ensures req.source != req.destination && a.sourceFound == Says(true) ==>
              && (r == Some(DestinationLookupFailed) <==> a.destinationFound == Unanswered)
              && (r == Some(NoDestination) <==> a.destinationFound == Says(false))
    ensures req.source != req.destination && a.sourceFound == a.destinationFound == Says(true) ==>
              && (r == Some(EmptyCheckFailed) <==> a.destinationEmpty == Unanswered)
              && (r == Some(NotEmpty) <==> a.destinationEmpty == Says(false) && !req.allowOverwrite)
  {
    if req.source.cluster == req.destination.cluster && req.source.pvc == req.destination.pvc then Some(SamePvc)
    else if a.sourceFound.Unanswered? then Some(SourceLookupFailed)
    else if !a.sourceFound.yes then Some(NoSource)
    else if a.destinationFound.Unanswered? then Some(DestinationLookupFailed)
    else if !a.destinationFound.yes then Some(NoDestination)
    else if a.destinationEmpty.Unanswered? then Some(EmptyCheckFailed)
    else if !a.destinationEmpty.yes && !req.allowOverwrite then Some(NotEmpty)
    else None
  }

  predicate KnownStrategy(name: string) {
    name == "stream" || name == "s3" || name == "direct"
  }

  function StrategyName(s: Strategy): string {
    match s
    case Stream => "stream"
    case S3 => "s3"
    case Direct => "direct"
  }

  /** An override is taken by its name, if it is known; otherwise one cluster streams, and two use S3 if it is there. */
  function SelectStrategy(req: Request, s3Configured: bool): (r: Option<Strategy>)
    ensures r.None? <==> req.strategyOverride.Some? && !KnownStrategy(req.strategyOverride.value)
    ensures r.Some? && req.strategyOverride.Some? ==> StrategyName(r.value) == req.strategyOverride.value
    ensures req.strategyOverride.None? ==>
              && (r == Some(Stream) <==> req.source.cluster == req.destination.cluster)
              && (r == Some(S3) <==> req.source.cluster != req.destination.cluster && s3Configured)
  {
    match req.strategyOverride
    case Some(name) =>
      if name == "stream" then Some(Stream)
      else if name == "s3" then Some(S3)
      else if name == "direct" then Some(Direct)
      else None
    case None =>
      if req.source.cluster == req.destination.cluster then Some(Stream)
      else if s3Configured then Some(S3)
      else Some(Direct)
  }

  // ---------------------------------------------------------------------------
  // The HTTP input check

  datatype FieldError = FieldError(field: string, message: string)

  predicate AcceptableInput(req: Request) {
    && req.source.cluster != "" && req.source.pvc != ""
    && req.destination.cluster != "" && req.destination.pvc != ""
    && req.source != req.destination
    && (req.strategyOverride.Some? ==> KnownStrategy(req.strategyOverride.value))
    && (req.retryMax.Some? ==> req.retryMax.value >= 1)
  }

  /** Some error blames the field. */
  predicate Blamed(errors: seq<FieldError>, field: string) {
    exists i :: 0 <= i < |errors| && errors[i].field == field
  }

  lemma BlamedAlso(errors: seq<FieldError>, e: FieldError, field: string)
    ensures Blamed(errors + [e], field) <==> Blamed(errors, field) || e.field == field
  {
    assert (errors + [e])[|errors|] == e;
    assert forall i :: 0 <= i < |errors| ==> (errors + [e])[i] == errors[i];
  }

  /** Adds an error if something is wrong with a field. */
  method Blame(errors: seq<FieldError>, wrong: bool, field: string, message: string) returns (r: seq<FieldError>)
    ensures r == [] <==> errors == [] && !wrong
    ensures forall f :: Blamed(r, f) <==> Blamed(errors, f) || (wrong && f == field)
  {
    r := errors;
    if wrong {
      var e := FieldError(field, message);
      forall f
        ensures Blamed(errors + [e], f) <==> Blamed(errors, f) || e.field == f
      {
        BlamedAlso(errors, e, f);
      }
      r := r + [e];
    }
  }

  /** Whether a field is to be blamed. */
  predicate Faulty(req: Request, field: string) {
    || (field == "source_cluster" && req.source.cluster == "")
    || (field == "source_pvc" && req.source.pvc == "")
    || (field == "destination_cluster" && req.destination.cluster == "")
    || (field == "destination_pvc" && (req.destination.pvc == "" || (Complete(req) && req.source == req.destination)))
    || (field == "strategy" && req.strategyOverride.Some? && !KnownStrategy(req.strategyOverride.value))
    || (field == "retry_max" && req.retryMax.Some? && req.retryMax.value < 1)
  }

  predicate Complete(req: Request) {
    req.source.cluster != "" && req.source.pvc != "" && req.destination.cluster != "" && req.destination.pvc != ""
  }

  method CheckEnds(req: Request) returns (r: seq<FieldError>)
    ensures r == [] <==> Complete(req)
    ensures forall f :: Blamed(r, f) <==>
              || (f == "source_cluster" && req.source.cluster == "") || (f == "source_pvc" && req.source.pvc == "")
              || (f == "destination_cluster" && req.destination.cluster == "")
              || (f == "destination_pvc" && req.destination.pvc == "")
  {
    r := Blame([], req.source.cluster == "", "source_cluster", "source cluster is required");
    r := Blame(r, req.source.pvc == "", "source_pvc", "source PVC is required");
    r := Blame(r, req.destination.cluster == "", "destination_cluster", "destination cluster is required");
    r := Blame(r, req.destination.pvc == "", "destination_pvc", "destination PVC is required");
  }

  /** Every field that is at fault is blamed, and no other. */
  method ValidateCreateTransferInput(req: Request) returns (errors: seq<FieldError>)
    ensures errors == [] <==> AcceptableInput(req)
    ensures forall f :: Blamed(errors, f) <==> Faulty(req, f)
  {
    errors := CheckEnds(req);
    var same := req.source.cluster == req.destination.cluster && req.source.pvc == req.destination.pvc;
    errors := Blame(errors, Complete(req) && same, "destination_pvc", "source and destination must differ");
    errors := CheckOptions(req, errors);
  }

  method CheckOptions(req: Request, errors: seq<FieldError>) returns (r: seq<FieldError>)
    ensures var unknown := req.strategyOverride.Some? && !KnownStrategy(req.strategyOverride.value);
            var few := req.retryMax.Some? && req.retryMax.value < 1;
            && (r == [] <==> errors == [] && !unknown && !few)
            && forall f :: Blamed(r, f) <==>
                 Blamed(errors, f) || (f == "strategy" && unknown) || (f == "retry_max" && few)
  {
    var unknown := req.strategyOverride.Some? && !KnownStrategy(req.strategyOverride.value);
    r := Blame(errors, unknown, "strategy", "invalid strategy; must be one of: stream, s3, direct");
    var few := req.retryMax.Some? && req.retryMax.value < 1;
    r := Blame(r, few, "retry_max", "maxAttempts must be >= 1");
  }

  // ---------------------------------------------------------------------------
  // The two tables, read back

  /** Every strategy has a name that selects it, and no other name is known. */
  lemma StrategyNames(req: Request, s: Strategy, name: string, s3: bool)
    ensures req.strategyOverride == Some(StrategyName(s)) ==> SelectStrategy(req, s3) == Some(s)
    ensures KnownStrategy(name) <==> name == "stream" || name == "s3" || name == "direct"
    ensures StrategyName(Stream) == "stream" && StrategyName(S3) == "s3" && StrategyName(Direct) == "direct"
  {
  }

  /** A state is terminal exactly if nothing leads out of it, and pending is the only one nothing leads into. */
  lemma TableEnds(s: State)
    ensures IsTerminal(s) <==> forall to :: !Edge(s, to)
    ensures s == Pending <==> forall from :: !Edge(from, s)
  {
    assert Edge(Pending, Validating) && Edge(Pending, Cancelled);
    assert Edge(Validating, Transferring) && Edge(Validating, Failed);
    assert Edge(Transferring, Completed) && Edge(Transferring, Failed);
  }
}
