/** The response pipeline of a non-stateful endpoint: load the schema, ask the
    provider, validate, retry once, fall back to the filler. */
module Pipeline {
  import opened Basics
  import opened Json
  import opened Schema
  import Filler

  const MAX_GENERATION_ATTEMPTS: nat := 2

  /** The stored schema text, as far as the generators tell texts apart. */
  datatype SchemaText = Empty | Blank | Unparsable | Document(schema: Json)

  datatype Load = LoadFailed | Loaded(text: SchemaText) {
    function GetText(): SchemaText {
      if Loaded? then text else Empty
    }
  }

  /** A response body, decoded where it is JSON. */
  datatype Body = NotJson | IsJson(doc: Json)

  /** What the provider answers to one call. */
  datatype Reply = ProviderError | NoReply | Reply(status: int, body: Body)

  datatype Response = Response(status: int, body: Body)

  /** The validator's verdict on a document, for schemas that compile or not. */
  type Validator = (Json, Json) -> bool

  /** A validator that accepts only valid documents. */
  ghost predicate Sound(accepts: Validator) {
    forall schema, doc :: accepts(schema, doc) ==> Valid(schema, doc)
  }

  predicate Accepted(accepts: Validator, text: SchemaText, body: Body) {
    text.Document? && body.IsJson? && accepts(text.schema, body.doc)
  }

  /** The reply used after answer number attempt and later ones, with the number
      of the last call made; None when the pipeline has to fall back. */
  function Outcome(answers: nat -> Reply, text: SchemaText, accepts: Validator,
      attempt: nat): (r: (Option<Response>, nat))
    ensures r.1 <= MAX_GENERATION_ATTEMPTS || r.1 == attempt - 1
    ensures r.0.Some? && text != Empty ==> Accepted(accepts, text, r.0.value.body)
    decreases MAX_GENERATION_ATTEMPTS + 1 - attempt
  {
    if attempt > MAX_GENERATION_ATTEMPTS then (None, attempt - 1)
    else
      match answers(attempt)
      case ProviderError => (None, attempt)
      case NoReply => (None, attempt)
      case Reply(status, body) =>
        if text.Empty? || Accepted(accepts, text, body) then (Some(Response(status, body)), attempt)
        else Outcome(answers, text, accepts, attempt + 1)
  }

  method GenerateWithRetry(answers: nat -> Reply, text: SchemaText, accepts: Validator)
    returns (r: Option<Response>, calls: nat)
    ensures (r, calls) == Outcome(answers, text, accepts, 1)
  {
    calls := 0;
    var attempt := 1;
    while attempt <= MAX_GENERATION_ATTEMPTS
      invariant 1 <= attempt <= MAX_GENERATION_ATTEMPTS + 1
      invariant calls == attempt - 1
      invariant Outcome(answers, text, accepts, 1) == Outcome(answers, text, accepts, attempt)
    {
      var answer := answers(attempt);
      calls := calls + 1;
      if answer.ProviderError? || answer.NoReply? {
        return None, calls;
      }
      var response := Response(answer.status, answer.body);
      if text.Empty? || Accepted(accepts, text, answer.body) {
        return Some(response), calls;
      }
      attempt := attempt + 1;
    }
    r := None;
  }

  /** A reply that ends the search: any without a stored schema, else a JSON document
      the validator accepts. */
  predicate Usable(reply: Reply, text: SchemaText, accepts: Validator) {
    && reply.Reply?
    && (text.Empty? || (text.Document? && reply.body.IsJson? && accepts(text.schema, reply.body.doc)))
  }

  /** The first usable reply is used, the second one only after an unusable first;
      a provider that fails to reply is not asked again. */
  lemma OutcomeOfTwo(answers: nat -> Reply, text: SchemaText, accepts: Validator)
    ensures
      var (used, calls) := Outcome(answers, text, accepts, 1);
      if Usable(answers(1), text, accepts) then
        used == Some(Response(answers(1).status, answers(1).body)) && calls == 1
      else if !answers(1).Reply? then used == None && calls == 1
      else if Usable(answers(2), text, accepts) then
        used == Some(Response(answers(2).status, answers(2).body)) && calls == 2
      else used == None && calls == 2
  {
    assert Outcome(answers, text, accepts, 3) == (None, 2);
  }

  /** The filler generator over its own schema load; stub is the response of the
      deterministic generator behind it. */
  method FakerGenerate(load: Load, stub: Response) returns (r: Response)
    ensures load.Loaded? && load.text.Document? ==>
      r.status == 200 && r.body.IsJson? && Filler.CanFill(load.text.schema, 0, r.body.doc)
    ensures !(load.Loaded? && load.text.Document?) ==> r == stub
  {
    if load.LoadFailed? || load.text.Empty? || load.text.Blank? || load.text.Unparsable? {
      return stub;
    }
    var filled := Filler.FillValue(load.text.schema, 0);
    r := Response(200, IsJson(filled));
  }

  /** The pipeline. Both generators load the schema, and may see different
      answers. */
  method Generate(load: Load, fakerLoad: Load, answers: nat -> Reply, accepts: Validator, stub: Response)
    returns (r: Response, calls: nat)
    ensures calls <= MAX_GENERATION_ATTEMPTS
    ensures load.LoadFailed? ==> calls == 0
    ensures Serves(load, fakerLoad, answers, accepts, stub, r)
    ensures calls ==
      if load.LoadFailed? then 0
      else if Usable(answers(1), load.text, accepts) || !answers(1).Reply? then 1
      else 2
  {
    OutcomeOfTwo(answers, load.GetText(), accepts);
    if load.LoadFailed? {
      r := FakerGenerate(fakerLoad, stub);
      return r, 0;
    }
    var reply;
    reply, calls := GenerateWithRetry(answers, load.text, accepts);
    if reply.None? {
      r := FakerGenerate(fakerLoad, stub);
      return;
    }
    r := reply.value;
  }

  /** r is a response the pipeline may serve: the provider's where it is usable,
      else a fill of the schema the filler loaded, else the stub's. */
  predicate Serves(load: Load, fakerLoad: Load, answers: nat -> Reply, accepts: Validator, stub: Response,
      r: Response)
  {
    var reply := if load.LoadFailed? then None else Outcome(answers, load.text, accepts, 1).0;
    if reply.Some? then r == reply.value
    else if fakerLoad.Loaded? && fakerLoad.text.Document? then
      r.status == 200 && r.body.IsJson? && Filler.CanFill(fakerLoad.text.schema, 0, r.body.doc)
    else r == stub
  }

  /** What may be served: a usable first reply as it is, a usable second one after an
      unusable first, and a fill of the stored schema, or the stub's response, only
      if there is neither. */
  lemma ServesIff(load: Load, fakerLoad: Load, answers: nat -> Reply, accepts: Validator, stub: Response, r: Response)
    ensures Serves(load, fakerLoad, answers, accepts, stub, r) <==>
      if load.Loaded? && Usable(answers(1), load.text, accepts) then
        r == Response(answers(1).status, answers(1).body)
      else if load.Loaded? && answers(1).Reply? && Usable(answers(2), load.text, accepts) then
        r == Response(answers(2).status, answers(2).body)
      else if fakerLoad.Loaded? && fakerLoad.text.Document? then
        r.status == 200 && r.body.IsJson? && Filler.CanFill(fakerLoad.text.schema, 0, r.body.doc)
      else r == stub
  {
    OutcomeOfTwo(answers, load.GetText(), accepts);
  }

  /** Whatever the provider answers and whatever a sound validator rejects, an
      endpoint whose schema is fillable is served a body valid against it. */
  lemma ServedBodyIsValid(schema: Json, answers: nat -> Reply, accepts: Validator, stub: Response, r: Response)
    requires WellFormed(schema) && Filler.Fillable(schema, 0) && Sound(accepts)
    requires Serves(Loaded(Document(schema)), Loaded(Document(schema)), answers, accepts, stub, r)
    ensures r.body.IsJson? && Valid(schema, r.body.doc)
  {
    var reply := Outcome(answers, Document(schema), accepts, 1).0;
    if reply.None? {
      Filler.FillIsValid(schema, 0, r.body.doc);
    }
  }

  /** Exactly the fillable schemas have this guarantee: for any other supported
      schema a silent provider leads to an invalid body. */
  lemma UnfillableSchemaServedInvalid(schema: Json, accepts: Validator, stub: Response)
      returns (answers: nat -> Reply, r: Response)
    requires WellFormed(schema) && !Filler.Fillable(schema, 0)
    ensures Serves(Loaded(Document(schema)), Loaded(Document(schema)), answers, accepts, stub, r)
    ensures r.body.IsJson? && !Valid(schema, r.body.doc)
  {
    answers := _ => NoReply;
    var bad := Filler.BadFill(schema, 0);
    r := Response(200, IsJson(bad));
  }
}
