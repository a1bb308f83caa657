/** Small datatypes for absent values and for the exceptions the source throws. */
module Base {

  datatype Option<T> = None | Some(value: T)

  /** The unchecked exceptions of the Java code that the model keeps as error values. */
  datatype Error =
    | IllegalArgument     // IllegalArgumentException thrown by DisjointSets
    | NoOverlappingMove   // findNonDisjointMoves returned null: the automaton is not total and deterministic
    | NoMintermMove       // mintermTransition found no move for a minterm

  datatype Result<T> = Ok(value: T) | Err(error: Error)

  /** Java's `int` range. */
  const IntMax: int := 0x7fff_ffff
  const IntMin: int := -0x8000_0000

  /** Java's `long` range. */
  const LongMax: int := 0x7fff_ffff_ffff_ffff
  const LongMin: int := -0x8000_0000_0000_0000

  /** Two's-complement wrap-around of an exact integer to 32 bits. */
  function Wrap32(x: int): (r: int)
    ensures IntMin <= r <= IntMax
    ensures (r - x) % 0x1_0000_0000 == 0
    ensures IntMin <= x <= IntMax ==> r == x
  {
    (x - IntMin) % 0x1_0000_0000 + IntMin
  }

  /** Two's-complement wrap-around of an exact integer to 64 bits. */
  function Wrap64(x: int): (r: int)
    ensures LongMin <= r <= LongMax
    ensures (r - x) % 0x1_0000_0000_0000_0000 == 0
    ensures LongMin <= x <= LongMax ==> r == x
  {
    (x - LongMin) % 0x1_0000_0000_0000_0000 + LongMin
  }

  /** A non-empty set of integers (states, symbols) has an element. */
  lemma NonEmptyHasElement(s: set<int>)
    requires s != {}
    ensures exists x :: x in s
  {
    if forall x :: x !in s {
      assert false;
    }
  }
}
