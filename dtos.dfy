/** The request and response bodies of the transaction endpoint (src/WebApi/main.go). */
module Dtos {
  import opened GoTypes

  /** The decoded body of `POST /clientes/{id}/transacoes`: value, kind ("c" or "d") and description. */
  datatype TransacaoDto = TransacaoDto(valor: int64, tipo: GoString, descricao: GoString)

  /** The success body of that endpoint: account id, its limit and its balance after the transaction. */
  datatype ClienteDto = ClienteDto(id: int64, limite: int64, saldo: int64)
}
