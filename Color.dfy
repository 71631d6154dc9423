// Color.kt: the two stone colours.
module Colors {

  datatype Color = Black | White {

    /** The other colour (`reversed`). */
    function Reversed(): (r: Color)
      ensures r != this
      ensures this == Black ==> r == White
      ensures this == White ==> r == Black
    {
      if this == Black then White else Black
    }

    /** The glyph printed for a stone of this colour (`toString`). */
    function Symbol(): string {
      match this
      case Black => "●"
      case White => "○"
    }
  }

  lemma ReversedInvolution(c: Color)
    ensures c.Reversed().Reversed() == c
  {
  }

  lemma SymbolsDistinct()
    ensures Black.Symbol() == "●" && White.Symbol() == "○"
    ensures Black.Symbol() != White.Symbol()
  {
  }
}
