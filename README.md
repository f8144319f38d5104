# Transaction endpoint of the rinha2 Go web API

This project models the decision logic of the Go web service `src/WebApi/main.go`.
The service exposes five provisioned accounts ("clientes"), each with a credit limit.
Clients post credit ("c") and debit ("d") transactions to `POST /clientes/{id}/transacoes`.
The balance and limit rule itself runs inside PostgreSQL stored procedures that are not part of this model.
What the Go code decides, and what is modelled here, is:

- the fixed account registry `clientes` and its lookup (module `Registry`);
- the payload check `isTransacaoValid` (module `Validation`);
- the order of checks in `postTransacaoHandler` and where each field of the success body comes from (module `PostTransacao`).

Supporting modules:

- `GoTypes` holds Go's 64-bit `int` and Go strings as byte sequences.
- `Utf8` holds the UTF-8 encoding in which Go stores decoded JSON strings (RFC 3629, section 3). It is used to relate Go's byte length to a character count.
- `Dtos` holds `TransacaoDto` and `ClienteDto`.
- `Wrappers` holds `Option`.

The handler's inputs are abstracted:

- the path id is `Option<int64>`, the outcome of `strconv.Atoi`;
- the body is `Option<TransacaoDto>`, the outcome of the JSON decode;
- the stored procedure `InsertTransacao` is a function parameter from its four arguments to a balance or a failure.

`PostTransacao.Decide` returns either the rejection the handler answers with, or the store call it would make.
Because of that split, "the store is never consulted" is a statement about values.

Where the documented API and the code differ, the model follows the code:

- The description limit is measured in bytes, because Go's `len` counts bytes. The API documents it in characters. `Validation.ValidImpliesCharacterRule` shows the byte rule is never more lenient than the character rule. `Validation.AsciiValidIffCharacterRule` shows the two agree on ASCII. `Validation.TenAccentedCharactersRejected` gives a ten-character description that the code rejects.
- The API documents 422 for a debit that would break the limit. The handler answers 500 for every store error and never 422 once the store is consulted (`PostTransacao.StoreOutcomeNever422`). What the stored procedure does for such a debit is not part of this model.

## Model

| member | source | states |
|---|---|---|
| Registry.RegistryContents | src/WebApi/main.go:45-51 | the registry is exactly {1:100000, 2:80000, 3:1000000, 4:10000000, 5:500000}, with every limit positive |
| Registry.LimiteOf | src/WebApi/main.go:165-169 | the lookup finds an account iff the id is 1 to 5; a found limit is positive (between 80000 and 10000000); any other id reports "not present" |
| Validation.IsTransacaoValid | src/WebApi/main.go:208-225 | valid iff the kind is exactly "c" or "d", the description has between 1 and 10 bytes, and the value is positive |
| Validation.ValidationBoundaries | src/WebApi/main.go:212-223 | "C", "" and "cc" are rejected as kinds; an empty description is rejected; exactly 10 bytes passes; 11 bytes fails; a value of 0 or less fails |
| Validation.ValidImpliesCharacterRule | src/WebApi/main.go:215-220 | for a UTF-8 description, acceptance implies the character-count rule (1 to 10 characters) |
| Validation.ValidDescricaoHasAtMostTenCharacters | src/WebApi/main.go:218-220 | any accepted description, well-formed or not, starts at most ten characters |
| Validation.AsciiValidIffCharacterRule | src/WebApi/main.go:215-220 | for ASCII descriptions, the byte rule and the character rule accept exactly the same transactions |
| Validation.NonAsciiDescricaoRejected | src/WebApi/main.go:218-220 | a description of more than five characters, none of them ASCII, is rejected |
| Validation.TenAccentedCharactersRejected | src/WebApi/main.go:218-220 | ten U+00E9 characters satisfy the character rule, take 20 bytes and are rejected |
| Utf8.EncodeLength | src/WebApi/main.go:218 | a UTF-8 string of n characters has between n and 4n bytes, which is the range Go's `len` can report |
| Utf8.ScalarCountEncode | src/WebApi/main.go:218 | counting the bytes that start a character recovers the number of characters of an encoded string |
| Utf8.ScalarCountAtMostLength | src/WebApi/main.go:218 | a byte string never holds more characters than bytes |
| PostTransacao.StatusOf | src/WebApi/main.go:157-205 | 200 iff the handler wrote a ClienteDto; every other outcome is 400, 404, 422 or 500 |
| PostTransacao.Decide | src/WebApi/main.go:158-187 | the checks run in order: parse (400), lookup (404), decode (400), validation (422); the store is reached iff all pass, with the request id and the decoded fields |
| PostTransacao.Handle | src/WebApi/main.go:157-199 | success iff the store is reached and returns a balance; the body then carries the request id, the registry limit and the returned balance unchanged; a store failure yields the database error |
| PostTransacao.HandleStatus | src/WebApi/main.go:159-193 | each status code (400, 404, 422, 500) together with the exact input condition that yields it |
| PostTransacao.UnknownIdIgnoresBody | src/WebApi/main.go:165-176 | a parsed but unregistered id is 404 whatever the body and the store |
| PostTransacao.RejectionIndependentOfStore | src/WebApi/main.go:178-187 | when a check fails, the store's behaviour cannot change the answer, which is a rejection |
| PostTransacao.StoreOutcomeNever422 | src/WebApi/main.go:187-193 | once the store is consulted the status is 200 or 500, never 422 |

## Left out

- `getExtratoHandler` (src/WebApi/main.go:98-154) is not modelled. It shares only the registry lookup, which `Registry.LimiteOf` covers. Its remaining logic is the statement query, the JSON fallback and encoding.
- `healthzHandler`, `main`, chi routing and `http.Server` settings are left out. They are I/O plumbing with no decisions.
- The stored procedures `InsertTransacao` and `GetSaldoClienteById` are foreign SQL that is not part of this model. So are the pgx pool, `QueryRow` and `Scan`. The store's answer is an opaque input, and the limit check, balance update and ten-entry history are not modelled.
- JSON decoding is abstracted to "decoded to a `TransacaoDto`" or "failed". Examples are a non-integer `valor`, unknown-case field matching, and missing fields that decode to zero values. Strings are assumed to arrive as UTF-8, as `encoding/json` produces them.
- `strconv.Atoi` is abstracted to "parsed to a 64-bit integer" or "failed".
- A failure to encode the success body (src/WebApi/main.go:201-204) is left out. Writing three integers can only fail on a broken connection, which is I/O.
- The message text of `http.Error` is left out. The `Rejection` value names which call site answered, and that is what distinguishes the two 400 responses. The database error text is not modelled.
- Context timeouts and request concurrency are left out. There is no logic in this code to model for them.
