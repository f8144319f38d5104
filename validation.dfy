/** The payload check `isTransacaoValid` (src/WebApi/main.go:208-225). */
module Validation {
  import opened GoTypes
  import opened Dtos
  import Utf8

  /** The string "c": a credit. */
  const TipoCredito: GoString := [0x63]
  /** The string "d": a debit. */
  const TipoDebito: GoString := [0x64]
  /** The longest description accepted, in bytes as Go's `len` counts them. */
  const MaxDescricaoLen := 10

  /**
   * Accepts a transaction only if its kind is exactly "c" or "d", its description
   * is non-empty and at most ten bytes long, and its value is positive. The checks
   * run in the source's order and the first one that fails rejects.
   */
  function IsTransacaoValid(t: TransacaoDto): (ok: bool)
    ensures ok <==>
      && t.tipo in {TipoCredito, TipoDebito}
      && 0 < |t.descricao| <= MaxDescricaoLen
      && t.valor > 0
  {
    if t.tipo != TipoCredito && t.tipo != TipoDebito then false
    else if t.descricao == [] then false
    else if |t.descricao| > MaxDescricaoLen then false
    else if t.valor <= 0 then false
    else true
  }

  /** Concrete boundaries of each check. */
  lemma ValidationBoundaries(v: int64, d: GoString)
    ensures !IsTransacaoValid(TransacaoDto(v, [0x43], d))         // "C"
    ensures !IsTransacaoValid(TransacaoDto(v, [], d))             // ""
    ensures !IsTransacaoValid(TransacaoDto(v, [0x63, 0x63], d))   // "cc"
    ensures !IsTransacaoValid(TransacaoDto(v, TipoCredito, []))
    ensures |d| == 10 && v > 0 ==> IsTransacaoValid(TransacaoDto(v, TipoDebito, d))
    ensures |d| == 11 ==> !IsTransacaoValid(TransacaoDto(v, TipoDebito, d))
    ensures v <= 0 ==> !IsTransacaoValid(TransacaoDto(v, TipoCredito, d))
  {
  }

  /**
   * The same rule with the description measured in characters rather than bytes,
   * which is how the service's API documents it.
   */
  predicate CharacterRule(t: TransacaoDto, chars: seq<Utf8.Scalar>) {
    && t.tipo in {TipoCredito, TipoDebito}
    && 0 < |chars| <= MaxDescricaoLen
    && t.valor > 0
  }

  /** Measuring in bytes is never more lenient than measuring in characters. */
  lemma {:induction false} ValidImpliesCharacterRule(t: TransacaoDto, chars: seq<Utf8.Scalar>)
    requires t.descricao == Utf8.Encode(chars)
    ensures IsTransacaoValid(t) ==> CharacterRule(t, chars)
  {
    Utf8.EncodeLength(chars);
  }

  /** Any accepted description, well-formed UTF-8 or not, holds at most ten characters. */
  lemma {:induction false} ValidDescricaoHasAtMostTenCharacters(t: TransacaoDto)
    requires IsTransacaoValid(t)
    ensures Utf8.ScalarCount(t.descricao) <= MaxDescricaoLen
  {
    Utf8.ScalarCountAtMostLength(t.descricao);
  }

  /** For ASCII descriptions the two measures agree. */
  lemma {:induction false} AsciiValidIffCharacterRule(t: TransacaoDto, chars: seq<Utf8.Scalar>)
    requires t.descricao == Utf8.Encode(chars)
    requires forall i :: 0 <= i < |chars| ==> chars[i] < 0x80
    ensures IsTransacaoValid(t) <==> CharacterRule(t, chars)
  {
    Utf8.AsciiEncodeLength(chars);
  }

  /** Six to ten accented characters satisfy the character rule yet are rejected. */
  lemma {:induction false} NonAsciiDescricaoRejected(t: TransacaoDto, chars: seq<Utf8.Scalar>)
    requires t.descricao == Utf8.Encode(chars)
    requires forall i :: 0 <= i < |chars| ==> chars[i] >= 0x80
    requires |chars| > MaxDescricaoLen / 2
    ensures !IsTransacaoValid(t)
  {
    Utf8.NonAsciiEncodeLength(chars);
  }

  /** A witness: the credit "éééééééééé" (ten U+00E9) is ten characters and twenty bytes. */
  lemma {:induction false} TenAccentedCharactersRejected()
    ensures var chars := seq(10, _ => 0xE9);
            var t := TransacaoDto(1, TipoCredito, Utf8.Encode(chars));
            CharacterRule(t, chars) && |t.descricao| == 20 && !IsTransacaoValid(t)
  {
    var chars: seq<Utf8.Scalar> := seq(10, _ => 0xE9);
    Utf8.TwoByteEncodeLength(chars);
    var t := TransacaoDto(1, TipoCredito, Utf8.Encode(chars));
    NonAsciiDescricaoRejected(t, chars);
  }
}
