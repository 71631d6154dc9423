// Move.kt: a colour and the point where it plays; no point means a pass.
module Moves {
  import opened Wrappers
  import opened Colors
  import opened Points

  datatype Move = Move(color: Color, point: Option<Point>) {

    /** `isPass`: true exactly when the move carries no point. */
    predicate IsPass() {
      point.None?
    }

    /** `toString`: the colour's glyph, ": ", then the point's name or "PASS". */
    function ToString(): (s: string)
      ensures |color.Symbol()| + 2 <= |s|
      ensures s[..|color.Symbol()| + 2] == color.Symbol() + ": "
      ensures IsPass() ==> s[|color.Symbol()| + 2..] == "PASS"
      ensures !IsPass() ==> s[|color.Symbol()| + 2..] == Pos(point.value)
    {
      color.Symbol() + ": " + (if IsPass() then "PASS" else Pos(point.value))
    }
  }

  /** A non-pass move always has a point, so `move.point!!` after the pass test cannot fail. */
  lemma NonPassHasPoint(m: Move)
    ensures !m.IsPass() <==> m.point.Some?
  {
  }

  /** The text forms the tests expect. */
  lemma ToStringExamples()
    ensures Move(Black, Some(At(0, 0))).ToString() == "●: a1"
    ensures Move(White, Some(At(0, 1))).ToString() == "○: b1"
    ensures Move(White, Some(At(7, 7))).ToString() == "○: h8"
    ensures Move(Black, None).ToString() == "●: PASS"
  {
  }
}
