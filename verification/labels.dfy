/**
  The round assignment of an ABX trial and what the four buttons play.
  `rand_file` is a pair of slot bits: the first says which physical file is
  heard as A (B is the other one), the second which is heard as X (Y is the
  other one). A slot bit of 0 exposes the original file under the primary
  label (A or X), 1 the converted file.
 */
module Labels {

  /** The two physical files of a session: the opened file and its lossy copy. */
  datatype Variant = Original | Converted

  /** The four play buttons. */
  datatype Label = A | B | X | Y

  /** The two guess buttons: 'a_x' ("A is X, B is Y") and 'a_y' ("A is Y, B is X"). */
  datatype Guess = AIsX | AIsY

  /** A pair as drawn by two calls of randint(0, 1). */
  predicate IsDraw(d: (int, int))
  {
    0 <= d.0 <= 1 && 0 <= d.1 <= 1
  }

  function Other(v: Variant): (w: Variant)
    ensures w != v
  {
    if v == Original then Converted else Original
  }

  /** The file a slot bit exposes under the primary label of its pair. */
  function Exposed(bit: int): Variant
  {
    if bit == 0 then Original else Converted
  }

  /** What a label stands for in the round `rf`: A and X follow their slot
      bits, B and Y are the complements of A and X. */
  function Resolve(l: Label, rf: (int, int)): Variant
  {
    match l
    case A => Exposed(rf.0)
    case B => Other(Exposed(rf.0))
    case X => Exposed(rf.1)
    case Y => Other(Exposed(rf.1))
  }

  /** The label a guess pairs with A. */
  function Partner(g: Guess): Label
  {
    if g == AIsX then X else Y
  }

  /** A guess is right when A and the label it pairs A with play the same file. */
  predicate Matches(g: Guess, rf: (int, int))
  {
    Resolve(A, rf) == Resolve(Partner(g), rf)
  }

  /** A is the original file exactly when the first slot bit is 0, X exactly
      when the second is; B and Y always play the file A and X do not, so both
      files are heard in each pair. */
  lemma ResolveBySlots(rf: (int, int))
    ensures Resolve(A, rf) == Original <==> rf.0 == 0
    ensures Resolve(X, rf) == Original <==> rf.1 == 0
    ensures Resolve(B, rf) != Resolve(A, rf) && Resolve(Y, rf) != Resolve(X, rf)
    ensures {Resolve(A, rf), Resolve(B, rf)} == {Original, Converted}
    ensures {Resolve(X, rf), Resolve(Y, rf)} == {Original, Converted}
  {
    if Resolve(A, rf) == Original {
      assert {Resolve(A, rf), Resolve(B, rf)} == {Original, Converted};
    } else {
      assert {Resolve(A, rf), Resolve(B, rf)} == {Converted, Original};
    }
    if Resolve(X, rf) == Original {
      assert {Resolve(X, rf), Resolve(Y, rf)} == {Original, Converted};
    } else {
      assert {Resolve(X, rf), Resolve(Y, rf)} == {Converted, Original};
    }
  }

  /** For a drawn pair, A and X play the same file exactly when the two slot bits agree. */
  lemma SameFileIffSlotsAgree(rf: (int, int))
    requires IsDraw(rf)
    ensures Resolve(A, rf) == Resolve(X, rf) <==> rf.0 == rf.1
  {
  }

  /** The scoring rule of evaluate_guess: 'a_x' is right exactly when the slot
      bits agree, 'a_y' exactly when they differ. */
  lemma MatchesBySlots(rf: (int, int))
    requires IsDraw(rf)
    ensures Matches(AIsX, rf) <==> rf.0 == rf.1
    ensures Matches(AIsY, rf) <==> rf.0 != rf.1
  {
  }

  /** In every one of the four rounds exactly one of the two guesses is right,
      and a right guess also pairs B with the label it leaves over. */
  lemma ExactlyOneGuessMatches(rf: (int, int))
    requires IsDraw(rf)
    ensures Matches(AIsX, rf) != Matches(AIsY, rf)
    ensures Matches(AIsX, rf) <==> Resolve(B, rf) == Resolve(Y, rf)
    ensures Matches(AIsY, rf) <==> Resolve(B, rf) == Resolve(X, rf)
  {
  }
}
