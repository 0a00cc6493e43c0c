/**
 The garden planner: two prices fixed when it is made, the live list of
 beds of the current design, and two cached totals (wall length and bed
 area) that change only when `RecalculateTotals` runs. The cost is worked
 out from the cached totals, so after the beds change it stays stale
 until the totals are recalculated.
 */
module GardenPlanning {
  import opened Wrappers
  import opened Text
  import opened Numbers
  import opened Rectangles
  import opened DesignFile

  const GARDEN_PLANNER_VERSION := "Garden Planner v0.2"

  /** Depth of soil in every bed, in metres. */
  const SOIL_DEPTH: real := 0.2

  /** The sum of `f` over the beds, accumulated in list order. */
  function SumOf(beds: seq<Rectangle>, f: Rectangle -> real): real {
    if beds == [] then 0.0 else SumOf(beds[..|beds| - 1], f) + f(beds[|beds| - 1])
  }

  function BedArea(r: Rectangle): real {
    r.Area()
  }

  function BedWall(r: Rectangle): real {
    r.Perimeter()
  }

  /** Total internal area of the beds. */
  function TotalArea(beds: seq<Rectangle>): real {
    SumOf(beds, BedArea)
  }

  /** Total length of the beds' walls. */
  function TotalWall(beds: seq<Rectangle>): real {
    SumOf(beds, BedWall)
  }

  /** Cost of walls and soil for one bed on its own. */
  function BedCost(r: Rectangle, wallPrice: real, soilPrice: real): real {
    r.Perimeter() * wallPrice + r.Area() * SOIL_DEPTH * soilPrice
  }

  /** The cost `getTotalCost` computes from a wall length and an area, step by step as the code does. */
  function Cost(wallLength: real, gardenArea: real, wallPrice: real, soilPrice: real): real {
    var wallCost := wallLength * wallPrice;
    var soilVolume := gardenArea * SOIL_DEPTH;
    var soilCost := soilVolume * soilPrice;
    wallCost + soilCost
  }

  /** Summing over two lists one after the other is summing over each and adding. */
  lemma {:induction false} SumOfAppend(a: seq<Rectangle>, b: seq<Rectangle>, f: Rectangle -> real)
    ensures SumOf(a + b, f) == SumOf(a, f) + SumOf(b, f)
    decreases |b|
  {
    if b == [] {
      assert a + b == a;
    } else {
      var n := |b| - 1;
      assert (a + b)[..|a + b| - 1] == a + b[..n];
      SumOfAppend(a, b[..n], f);
    }
  }

  /** The sum of one bed is that bed's value. */
  lemma SumOfOne(r: Rectangle, f: Rectangle -> real)
    ensures SumOf([r], f) == f(r)
  {
    assert [r][..0] == [];
  }

  /**
   The sum does not depend on the order of the beds: any rearrangement of
   the list (same beds, same number of times each) has the same sum.
   */
  lemma {:induction false} SumOfPermutation(a: seq<Rectangle>, b: seq<Rectangle>, f: Rectangle -> real)
    requires multiset(a) == multiset(b)
    ensures SumOf(a, f) == SumOf(b, f)
    decreases |a|
  {
    if a == [] {
      assert |b| == |multiset(b)| == 0;
    } else {
      var n := |a| - 1;
      var x := a[n];
      assert a == a[..n] + [x];
      assert x in multiset(b);
      var k :| 0 <= k < |b| && b[k] == x;
      var rest := b[..k] + b[k + 1..];
      assert b == b[..k] + [x] + b[k + 1..];
      assert multiset(a[..n]) == multiset(rest) by {
        calc {
          multiset(a[..n]) + multiset([x]);
          multiset(a);
          multiset(b);
          multiset(b[..k]) + multiset([x]) + multiset(b[k + 1..]);
          multiset(rest) + multiset([x]);
        }
        MultisetCancel(multiset(a[..n]), multiset(rest), multiset([x]));
      }
      SumOfPermutation(a[..n], rest, f);
      SumOfAround(b[..k], x, b[k + 1..], f);
      SumOfAppend(a[..n], [x], f);
      SumOfOne(x, f);
    }
  }

  /** The sum of a list with one bed singled out: the parts before and after, plus that bed. */
  lemma SumOfAround(p: seq<Rectangle>, x: Rectangle, q: seq<Rectangle>, f: Rectangle -> real)
    ensures SumOf(p + [x] + q, f) == SumOf(p + q, f) + f(x)
  {
    SumOfAppend(p + [x], q, f);
    SumOfAppend(p, [x], f);
    SumOfAppend(p, q, f);
    SumOfOne(x, f);
  }

  lemma MultisetCancel<T>(p: multiset<T>, q: multiset<T>, m: multiset<T>)
    requires p + m == q + m
    ensures p == q
  {
    forall e ensures p[e] == q[e] {
      assert (p + m)[e] == (q + m)[e];
    }
  }

  /** Removing the bed at index `i` takes exactly its value off the sum. */
  lemma SumOfRemove(beds: seq<Rectangle>, i: nat, f: Rectangle -> real)
    requires i < |beds|
    ensures SumOf(beds[..i] + beds[i + 1..], f) == SumOf(beds, f) - f(beds[i])
  {
    Decompose(beds, i);
    SumOfAround(beds[..i], beds[i], beds[i + 1..], f);
  }

  lemma Decompose(beds: seq<Rectangle>, i: nat)
    requires i < |beds|
    ensures beds == beds[..i] + [beds[i]] + beds[i + 1..]
  {
  }

  /** A sum of non-negative values is non-negative. */
  lemma {:induction false} SumOfNonNegative(beds: seq<Rectangle>, f: Rectangle -> real)
    requires forall i :: 0 <= i < |beds| ==> f(beds[i]) >= 0.0
    ensures SumOf(beds, f) >= 0.0
  {
    if beds != [] {
      SumOfNonNegative(beds[..|beds| - 1], f);
    }
  }

  /** Beds of non-negative size have a non-negative total area and wall length. */
  lemma TotalsNonNegative(beds: seq<Rectangle>)
    requires forall i :: 0 <= i < |beds| ==> beds[i].width >= 0.0 && beds[i].height >= 0.0
    ensures TotalArea(beds) >= 0.0 && TotalWall(beds) >= 0.0
  {
    SumOfNonNegative(beds, BedArea);
    SumOfNonNegative(beds, BedWall);
  }

  /**
   The cost of the totals is the sum of the costs of the beds taken one by
   one: walls and soil are priced linearly.
   */
  lemma {:induction false} CostIsSumOfBedCosts(beds: seq<Rectangle>, wallPrice: real, soilPrice: real)
    ensures Cost(TotalWall(beds), TotalArea(beds), wallPrice, soilPrice)
      == SumOf(beds, (r: Rectangle) => BedCost(r, wallPrice, soilPrice))
  {
    if beds != [] {
      var n := |beds| - 1;
      CostIsSumOfBedCosts(beds[..n], wallPrice, soilPrice);
      CostSplits(TotalWall(beds[..n]), TotalArea(beds[..n]), beds[n], wallPrice, soilPrice);
    }
  }

  lemma CostSplits(wall: real, area: real, r: Rectangle, wallPrice: real, soilPrice: real)
    ensures Cost(wall + r.Perimeter(), area + r.Area(), wallPrice, soilPrice)
      == Cost(wall, area, wallPrice, soilPrice) + BedCost(r, wallPrice, soilPrice)
  {
    var p, a := r.Perimeter(), r.Area();
    Distributes(wall, p, wallPrice);
    Distributes(area * SOIL_DEPTH, a * SOIL_DEPTH, soilPrice);
  }

  lemma Distributes(x: real, y: real, z: real)
    ensures (x + y) * z == x * z + y * z
  {
  }

  /** Appending a bed adds exactly its area and its perimeter to the true totals. */
  lemma AddingBedChangesTotals(beds: seq<Rectangle>, b: Rectangle)
    ensures TotalArea(beds + [b]) == TotalArea(beds) + b.Area()
    ensures TotalWall(beds + [b]) == TotalWall(beds) + b.Perimeter()
  {
    assert (beds + [b])[..|beds|] == beds;
  }

  /**
   Totals cached before a bed with a non-zero area or wall is appended no
   longer describe the design: they stay stale until recalculated.
   */
  lemma AddingBedMakesTotalsStale(beds: seq<Rectangle>, b: Rectangle, wall: real, area: real)
    requires wall == TotalWall(beds) && area == TotalArea(beds)
    requires b.Area() != 0.0 || b.Perimeter() != 0.0
    ensures wall != TotalWall(beds + [b]) || area != TotalArea(beds + [b])
  {
    AddingBedChangesTotals(beds, b);
  }

  class GardenPlanner {
    /** Price of garden soil, per cubic metre. */
    const soilPrice: real
    /** Price of bed wall, per metre. */
    const wallPrice: real
    /** The beds of the current design, in order; clients add and remove beds freely. */
    var beds: seq<Rectangle>
    var totalWallLength: real
    var totalGardenArea: real

    /** The cached totals describe the current beds. */
    predicate TotalsCurrent()
      reads this
    {
      totalWallLength == TotalWall(beds) && totalGardenArea == TotalArea(beds)
    }

    /** A planner with the given prices, no beds, and both totals zero. */
    constructor (soilPerCubicMetre: real, wallPerMetre: real)
      ensures soilPrice == soilPerCubicMetre && wallPrice == wallPerMetre
      ensures beds == [] && totalWallLength == 0.0 && totalGardenArea == 0.0
      ensures TotalsCurrent()
    {
      soilPrice := soilPerCubicMetre;
      wallPrice := wallPerMetre;
      beds := [];
      totalWallLength := 0.0;
      totalGardenArea := 0.0;
    }

    /** The live bed list; a client that changes it goes through `AddBed` and `RemoveBedAt`. */
    function GetBeds(): (bs: seq<Rectangle>)
      reads this
      ensures TotalsCurrent() ==> TotalArea(bs) == totalGardenArea && TotalWall(bs) == totalWallLength
    {
      beds
    }

    /** The cached wall length: the true total only while the totals are current. */
    function GetTotalWallLength(): (length: real)
      reads this
      ensures TotalsCurrent() ==> length == TotalWall(beds)
    {
      totalWallLength
    }

    /** The cached bed area: the true total only while the totals are current. */
    function GetTotalGardenArea(): (area: real)
      reads this
      ensures TotalsCurrent() ==> area == TotalArea(beds)
    {
      totalGardenArea
    }

    /**
     Wall cost plus soil cost, from the cached totals and the prices only;
     it does not look at the beds.
     */
    function GetTotalCost(): (cost: real)
      reads this`totalWallLength, this`totalGardenArea
      ensures totalWallLength >= 0.0 && totalGardenArea >= 0.0 && wallPrice >= 0.0 && soilPrice >= 0.0 ==> cost >= 0.0
      ensures totalWallLength == 0.0 && totalGardenArea == 0.0 ==> cost == 0.0
    {
      Cost(totalWallLength, totalGardenArea, wallPrice, soilPrice)
    }

    /** A client appends a bed to the live list; the totals are left as they were. */
    method AddBed(b: Rectangle)
      modifies this`beds
      ensures beds == old(beds) + [b]
      ensures totalWallLength == old(totalWallLength) && totalGardenArea == old(totalGardenArea)
    {
      beds := beds + [b];
    }

    /**
     A client removes the bed at index `i` from the live list, getting it
     back; an index out of range removes nothing. The totals are left as
     they were.
     */
    method RemoveBedAt(i: nat) returns (removed: Option<Rectangle>)
      modifies this`beds
      ensures i < |old(beds)| ==> removed == Some(old(beds)[i]) && beds == old(beds)[..i] + old(beds)[i + 1..]
      ensures i >= |old(beds)| ==> removed == None && beds == old(beds)
      ensures totalWallLength == old(totalWallLength) && totalGardenArea == old(totalGardenArea)
    {
      if i < |beds| {
        removed := Some(beds[i]);
        beds := beds[..i] + beds[i + 1..];
      } else {
        removed := None;
      }
    }

    /**
     Reads a design, line by line while the scanner still finds a token,
     appending a bed for each bed line. It stops at the first bad line and
     reports why; the beds read before it stay in the list. The totals and
     prices are not touched.
     */
    method ReadBeds(lines: seq<string>) returns (failure: Option<Failure>)
      modifies this`beds
      ensures beds == old(beds) + ReadDesign(lines).beds
      ensures failure == ReadDesign(lines).failure
      ensures totalWallLength == old(totalWallLength) && totalGardenArea == old(totalGardenArea)
    {
      ghost var visited := lines[..ScanEnd(lines)];
      assert visited[0..] == visited;
      var i := 0;
      while HasNext(lines, i)
        invariant i <= |visited|
        invariant old(beds) + ReadAll(visited).beds == beds + ReadAll(visited[i..]).beds
        invariant ReadAll(visited).failure == ReadAll(visited[i..]).failure
        decreases |visited| - i
      {
        HasNextIff(lines, i);
        VisitedLine(lines, i);
        ReadStep(visited, i);
        match ParseLine(lines[i]) {
          case Skip =>
          case Add(b) =>
            AppendAssoc(beds, [b], ReadAll(visited[i + 1..]).beds);
            beds := beds + [b];
          case Fail(f) =>
            return Some(f);
        }
        i := i + 1;
      }
      HasNextIff(lines, i);
      assert visited[i..] == [];
      return None;
    }

    /**
     Sets the totals to the sums of bed area and wall length, starting from
     zero, so whatever they were before does not matter.
     */
    method RecalculateTotals()
      modifies this`totalWallLength, this`totalGardenArea
      ensures TotalsCurrent()
      ensures beds == old(beds)
    {
      totalWallLength := 0.0;
      totalGardenArea := 0.0;
      for i := 0 to |beds|
        invariant totalGardenArea == TotalArea(beds[..i])
        invariant totalWallLength == TotalWall(beds[..i])
      {
        var bed := beds[i];
        AddingBedChangesTotals(beds[..i], bed);
        PrefixGrows(beds, i);
        totalGardenArea := totalGardenArea + bed.Area();
        totalWallLength := totalWallLength + bed.Perimeter();
      }
      assert beds[..|beds|] == beds;
    }
  }

  /**
   A worked design: beds of 2 by 1, 2 by 2 and 2 by 1 metres have 8 square
   metres of area and 20 metres of wall; at 17 per metre of wall and 81 per
   cubic metre of soil they cost 469.6.
   */
  lemma ExampleDesign()
    ensures var beds := [Rectangle(2.0, 1.0), Rectangle(2.0, 2.0), Rectangle(2.0, 1.0)];
      && TotalArea(beds) == 8.0 && TotalWall(beds) == 20.0
      && Cost(TotalWall(beds), TotalArea(beds), 17.0, 81.0) == 469.6
  {
    var beds := [Rectangle(2.0, 1.0), Rectangle(2.0, 2.0), Rectangle(2.0, 1.0)];
    AddingBedChangesTotals([], beds[0]);
    assert [beds[0]] + [beds[1]] == beds[..2];
    AddingBedChangesTotals(beds[..1], beds[1]);
    AddingBedChangesTotals(beds[..2], beds[2]);
    assert beds[..2] + [beds[2]] == beds;
  }

  /** Reading from line `i` on is handling line `i`, then the lines after it. */
  lemma ReadStep(visited: seq<string>, i: nat)
    requires i < |visited|
    ensures ReadAll(visited[i..]) == Then(ParseLine(visited[i]), ReadAll(visited[i + 1..]))
  {
    ReadFirst(visited[i..]);
    assert visited[i..][1..] == visited[i + 1..];
  }

  lemma AppendAssoc(a: seq<Rectangle>, b: seq<Rectangle>, c: seq<Rectangle>)
    ensures a + (b + c) == (a + b) + c
  {
  }

  lemma PrefixGrows(beds: seq<Rectangle>, i: nat)
    requires i < |beds|
    ensures beds[..i + 1] == beds[..i] + [beds[i]]
  {
  }

  /** With current totals, the cost is the sum of the costs of the beds one by one. */
  lemma CurrentCostIsSumOfBedCosts(p: GardenPlanner)
    requires p.TotalsCurrent()
    ensures p.GetTotalCost() == SumOf(p.beds, (r: Rectangle) => BedCost(r, p.wallPrice, p.soilPrice))
  {
    CostIsSumOfBedCosts(p.beds, p.wallPrice, p.soilPrice);
  }
}
