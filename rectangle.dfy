/**
 A rectangular garden bed: an immutable width and height in metres.
 Any width and height are accepted, zero and negative ones included.
 */
module Rectangles {
  import opened Text

  datatype Rectangle = Rectangle(width: real, height: real) {

    /** The internal area of the bed. */
    function Area(): (a: real)
      ensures width >= 0.0 && height >= 0.0 ==> a >= 0.0
      ensures width > 0.0 && height > 0.0 ==> a > 0.0
      ensures width == 0.0 || height == 0.0 ==> a == 0.0
    {
      width * height
    }

    /** The total length of the bed's edges. */
    function Perimeter(): (p: real)
      ensures width >= 0.0 && height >= 0.0 ==> p >= 0.0
      ensures width > 0.0 || height > 0.0 ==> width >= 0.0 && height >= 0.0 ==> p > 0.0
      ensures p == 0.0 <==> width == -height
    {
      2.0 * (width + height)
    }

    /**
     The text form "Rectangle <width> <height>", with `fmt` standing for
     Java's conversion of a double to text. When both numbers print as
     single words, the text is exactly three space-separated words.
     */
    function ToString(fmt: real -> string): (s: string)
      ensures IsWord(fmt(width)) && IsWord(fmt(height)) ==>
        Split(s) == ["Rectangle", fmt(width), fmt(height)] && Trim(s) == s
    {
      var words := ["Rectangle", fmt(width), fmt(height)];
      var s := "Rectangle " + fmt(width) + " " + fmt(height);
      assert Join(words[2..]) == fmt(height);
      assert Join(words[1..]) == fmt(width) + " " + fmt(height);
      assert s == Join(words);
      if IsWord(fmt(width)) && IsWord(fmt(height)) then
        assert forall i :: 0 <= i < 3 ==> IsWord(words[i]);
        SplitJoin(words);
        JoinFacts(words);
        TrimKeeps(s);
        s
      else s
    }
  }

  /**
   Turning a bed through a right angle changes neither its area nor its
   perimeter. This and the next lemma are extra facts about the two formulas;
   nothing else in the model relies on them.
   */
  lemma RotationKeepsMeasures(r: Rectangle)
    ensures Rectangle(r.height, r.width).Area() == r.Area()
    ensures Rectangle(r.height, r.width).Perimeter() == r.Perimeter()
  {
  }

  /**
   Of all beds with a given area, the square one has the shortest wall:
   the squared perimeter is at least sixteen times the area, and equal to
   it for a square. An extra fact about the formulas, like the one above.
   */
  lemma PerimeterBoundsArea(r: Rectangle)
    ensures r.Perimeter() * r.Perimeter() >= 16.0 * r.Area()
    ensures r.width == r.height ==> r.Perimeter() * r.Perimeter() == 16.0 * r.Area()
  {
    var d := r.width - r.height;
    assert r.Perimeter() * r.Perimeter() - 16.0 * r.Area() == 4.0 * (d * d);
    if d < 0.0 {
      assert d * d == (-d) * (-d);
    }
  }
}
