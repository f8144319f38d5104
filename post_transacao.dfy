/**
 * The decision path of `postTransacaoHandler` (src/WebApi/main.go:157-205), with
 * its inputs abstracted: the outcome of parsing the path id, the outcome of
 * decoding the JSON body, and the stored procedure `InsertTransacao` as an
 * opaque function from its arguments to a balance or an error.
 */
module PostTransacao {
  import opened GoTypes
  import opened Wrappers
  import opened Dtos
  import opened Registry
  import opened Validation

  /** Why the handler answered with `http.Error`, one per call site. */
  datatype Rejection =
    | InvalidClientId         // the id segment is not an integer
    | ClientNotFound          // the id is not in the registry
    | InvalidJsonPayload      // the body does not decode
    | InvalidTransactionData  // the decoded body fails `isTransacaoValid`
    | DatabaseError           // the stored procedure call or its scan failed

  /** What the handler writes back. */
  datatype Response = Rejected(reason: Rejection) | Accepted(cliente: ClienteDto)

  /** The arguments of `SELECT InsertTransacao($1, $2, $3, $4)`. */
  datatype InsertCall = InsertTransacao(clienteId: int64, valor: int64, tipo: GoString, descricao: GoString)

  /** What scanning the stored procedure's single row yields. */
  datatype StoreResult = UpdatedSaldo(saldo: int64) | StoreFailure

  /** How far the handler gets before it would reach the store. */
  datatype Step = Respond(reason: Rejection) | CallStore(call: InsertCall, limite: int64)

  /** The HTTP status of a response; a written JSON body goes out with Go's implicit 200. */
  function StatusOf(r: Response): (code: int)
    ensures code == 200 <==> r.Accepted?
    ensures code in {200, 400, 404, 422, 500}
  {
    match r
    case Accepted(_) => 200
    case Rejected(InvalidClientId) => 400
    case Rejected(ClientNotFound) => 404
    case Rejected(InvalidJsonPayload) => 400
    case Rejected(InvalidTransactionData) => 422
    case Rejected(DatabaseError) => 500
  }

  /** True when the parsed id names a provisioned account. */
  predicate Registered(idParsed: Option<int64>) {
    idParsed.Some? && LimiteOf(idParsed.value).Some?
  }

  /**
   * The checks before the store call, in the source's order: id parse, registry
   * lookup, JSON decode, validation. The store is reached only when all pass, and
   * then with the request's id and the decoded fields unchanged.
   */
  function Decide(idParsed: Option<int64>, body: Option<TransacaoDto>): (s: Step)
    ensures s.CallStore? <==> Registered(idParsed) && body.Some? && IsTransacaoValid(body.value)
    ensures s.CallStore? ==>
      && s.call == InsertTransacao(idParsed.value, body.value.valor, body.value.tipo, body.value.descricao)
      && Some(s.limite) == LimiteOf(idParsed.value)
    ensures s == Respond(InvalidClientId) <==> idParsed.None?
    ensures s == Respond(ClientNotFound) <==> idParsed.Some? && !Registered(idParsed)
    ensures s == Respond(InvalidJsonPayload) <==> Registered(idParsed) && body.None?
    ensures s == Respond(InvalidTransactionData) <==>
      Registered(idParsed) && body.Some? && !IsTransacaoValid(body.value)
    ensures s != Respond(DatabaseError)
  {
    match idParsed
    case None => Respond(InvalidClientId)
    case Some(clientId) =>
      match LimiteOf(clientId)
      case None => Respond(ClientNotFound)
      case Some(limite) =>
        match body
        case None => Respond(InvalidJsonPayload)
        case Some(transacao) =>
          if !IsTransacaoValid(transacao) then Respond(InvalidTransactionData)
          else CallStore(InsertTransacao(clientId, transacao.valor, transacao.tipo, transacao.descricao), limite)
  }

  /**
   * The whole handler. On success the body carries the request's id, the
   * registry's limit and the balance the store returned, untouched; any store
   * failure is a 500.
   */
  function Handle(idParsed: Option<int64>, body: Option<TransacaoDto>, store: InsertCall -> StoreResult): (r: Response)
    ensures r.Accepted? <==>
      Decide(idParsed, body).CallStore? && store(Decide(idParsed, body).call).UpdatedSaldo?
    ensures r.Accepted? ==>
      && r.cliente.id == idParsed.value
      && r.cliente.limite == Clientes[idParsed.value]
      && r.cliente.saldo == store(InsertTransacao(idParsed.value, body.value.valor, body.value.tipo, body.value.descricao)).saldo
    ensures r == Rejected(DatabaseError) <==>
      Decide(idParsed, body).CallStore? && store(Decide(idParsed, body).call) == StoreFailure
    ensures !Decide(idParsed, body).CallStore? ==> r == Rejected(Decide(idParsed, body).reason)
  {
    match Decide(idParsed, body)
    case Respond(reason) => Rejected(reason)
    case CallStore(call, limite) =>
      match store(call)
      case StoreFailure => Rejected(DatabaseError)
      case UpdatedSaldo(saldo) => Accepted(ClienteDto(call.clienteId, limite, saldo))
  }

  /** The status codes as a client sees them, each with the exact condition that yields it. */
  lemma HandleStatus(idParsed: Option<int64>, body: Option<TransacaoDto>, store: InsertCall -> StoreResult)
    ensures var code := StatusOf(Handle(idParsed, body, store));
      && (code == 400 <==> idParsed.None? || (Registered(idParsed) && body.None?))
      && (code == 404 <==> idParsed.Some? && !Registered(idParsed))
      && (code == 422 <==> Registered(idParsed) && body.Some? && !IsTransacaoValid(body.value))
      && (code == 500 <==> Decide(idParsed, body).CallStore? && store(Decide(idParsed, body).call).StoreFailure?)
  {
  }

  /** An unknown id is a 404 whatever the body and the store: the lookup precedes the decode. */
  lemma UnknownIdIgnoresBody(
    id: int64, body1: Option<TransacaoDto>, body2: Option<TransacaoDto>,
    store1: InsertCall -> StoreResult, store2: InsertCall -> StoreResult)
    requires LimiteOf(id).None?
    ensures Handle(Some(id), body1, store1) == Handle(Some(id), body2, store2) == Rejected(ClientNotFound)
  {
  }

  /** Unless every check passes the store is never consulted: any two stores give the same answer. */
  lemma RejectionIndependentOfStore(
    idParsed: Option<int64>, body: Option<TransacaoDto>,
    store1: InsertCall -> StoreResult, store2: InsertCall -> StoreResult)
    requires !(Registered(idParsed) && body.Some? && IsTransacaoValid(body.value))
    ensures Handle(idParsed, body, store1) == Handle(idParsed, body, store2)
    ensures Handle(idParsed, body, store1).Rejected?
  {
  }

  /** Once the store is consulted the answer is 200 or 500, never 422, whatever the store decides. */
  lemma StoreOutcomeNever422(idParsed: Option<int64>, body: Option<TransacaoDto>, store: InsertCall -> StoreResult)
    requires Decide(idParsed, body).CallStore?
    ensures StatusOf(Handle(idParsed, body, store)) in {200, 500}
  {
  }
}
