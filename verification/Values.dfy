/** Small shared values. */
module Values {
  datatype Option<+T> = None | Some(value: T)

  // Opaque values whose text never matters to the protocol.
  datatype Path = Path(id: nat)
  datatype Token = Token(id: nat)
  datatype Commit = Commit(id: nat)
  datatype Tree = Tree(id: nat)

  type byte = b: int | 0 <= b < 256

  function Min(a: int, b: int): int { if a < b then a else b }
  function Max(a: int, b: int): int { if a > b then a else b }

  function Lower(a: real, b: real): real { if a <= b then a else b }
  function Higher(a: real, b: real): real { if a >= b then a else b }
}
