/**
  internal/crypto/field.go, idealised: a ciphertext opens under the data key
  that sealed it and under no other. A column that was never written (an empty
  blob) opens to the empty text under every key.
 */
module FieldCrypto {
  import opened Basics

  type Text = string

  /** A data encryption key, known only by its identity. */
  type Dek = nat

  datatype Blob = Null | Sealed(dek: Dek, text: Text)

  function Encrypt(dek: Dek, text: Text): Blob {
    Sealed(dek, text)
  }

  function Decrypt(dek: Dek, blob: Blob): Option<Text> {
    match blob
    case Null => Some("")
    case Sealed(k, t) => if k == dek then Some(t) else None
  }

  /** What the column says to whoever holds the right key. */
  function Plain(blob: Blob): Text {
    match blob
    case Null => ""
    case Sealed(_, t) => t
  }

  /** Every non-empty cell of the row was sealed with dek. */
  predicate SealedWith(cells: seq<Blob>, dek: Dek) {
    forall i :: 0 <= i < |cells| && cells[i].Sealed? ==> cells[i].dek == dek
  }

  function PlainCells(cells: seq<Blob>): (texts: seq<Text>)
    ensures |texts| == |cells|
  {
    seq(|cells|, i requires 0 <= i < |cells| => Plain(cells[i]))
  }

  /** reembed.go's decryptEach: all the cells open, or the call fails. */
  function DecryptEach(dek: Dek, cells: seq<Blob>): (r: Option<seq<Text>>)
    ensures r.Some? <==> SealedWith(cells, dek)
    ensures r.Some? ==> r.value == PlainCells(cells)
  {
    if forall i :: 0 <= i < |cells| ==> Decrypt(dek, cells[i]).Some?
    then Some(PlainCells(cells))
    else assert exists i :: 0 <= i < |cells| && Decrypt(dek, cells[i]).None?; None
  }

  /** A row with any ciphertext at all opens under one key only. */
  lemma SealedWithOneKey(cells: seq<Blob>, k: nat, dek: Dek)
    requires k < |cells| && cells[k].Sealed? && SealedWith(cells, cells[k].dek)
    ensures SealedWith(cells, dek) <==> dek == cells[k].dek
  {
  }
}
