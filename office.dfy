/** The office scene on the home screen: a three-column grid of desks, one per
    employee, and the floating money texts a timer spawns over a random desk
    and each text's animation removes again. */
module Office {
  import opened Seqs
  import opened JsString
  import opened JsNumber

  /** The grid's width. */
  const Columns: nat := 3

  /** Minutes in a day: the spawned value is a tenth of a minute's profit scaled by ten. */
  const MinutesPerDay: nat := 24 * 60

  /** One floating text: its id, the amount shown, and the desk's column and row. */
  datatype FloatingText = FloatingText(id: nat, value: int, x: nat, y: nat)

  // ---------------------------------------------------------------------------
  // Grid arithmetic
  // ---------------------------------------------------------------------------

  /** The column of the desk at `index`. */
  function GridCol(index: nat): (col: nat)
    ensures col < Columns
  {
    index % Columns
  }

  /** The row of the desk at `index`. */
  function GridRow(index: nat): (row: nat)
    ensures row <= index
  {
    index / Columns
  }

  /** Column and row locate the index: reading the grid row by row gives it back. */
  lemma GridPosition(index: nat)
    ensures GridCol(index) + Columns * GridRow(index) == index
  {
  }

  /** No two desks share a cell. */
  lemma GridCellUnique(i: nat, j: nat)
    ensures GridCol(i) == GridCol(j) && GridRow(i) == GridRow(j) <==> i == j
  {
    GridPosition(i);
    GridPosition(j);
  }

  /** The number of desks rendered: at least one, even without employees. */
  function DeskCount(employeeCount: nat): (n: nat)
    ensures n >= 1 && employeeCount <= n
    ensures employeeCount >= 1 ==> n == employeeCount
  {
    if employeeCount > 1 then employeeCount else 1
  }

  /** The home screen's employee count for a VIP level: three per level, a
      missing (zero) level read as one, clamped to [3, 6]. */
  function HomeEmployeeCount(vipLevel: int): (n: nat)
    ensures 3 <= n <= 6
    ensures vipLevel == 2 ==> n == 6
    ensures n == if vipLevel >= 2 then 6 else 3
  {
    var level := if vipLevel == 0 then 1 else vipLevel;
    var scaled := level * 3;
    var atLeast := if scaled > 3 then scaled else 3;
    if atLeast < 6 then atLeast else 6
  }

  // ---------------------------------------------------------------------------
  // Spawned value
  // ---------------------------------------------------------------------------

  /** `Math.max(1, Math.floor(dailyProfit / (24 * 60) * 10))`. */
  function SpawnValue(dailyProfit: real): (v: int)
    ensures v >= 1
    ensures v == 1 <==> dailyProfit < 288.0
    ensures v > 1 ==> v as real <= dailyProfit / 144.0 < v as real + 1.0
  {
    var raw := Floor(dailyProfit / MinutesPerDay as real * 10.0);
    if raw > 1 then raw else 1
  }

  // ---------------------------------------------------------------------------
  // Desk views
  // ---------------------------------------------------------------------------

  /** Whether `t` floats over the desk at `index`. */
  function AtDesk(index: nat): FloatingText -> bool {
    (t: FloatingText) => t.x == GridCol(index) && t.y == GridRow(index)
  }

  /** The texts the desk at `index` shows, in list order. */
  function DeskTexts(texts: seq<FloatingText>, index: nat): (r: seq<FloatingText>)
    ensures |r| <= |texts|
  {
    Filter(texts, AtDesk(index))
  }

  /** A desk shows exactly the texts whose cell is its own. */
  lemma DeskTextsExact(texts: seq<FloatingText>, index: nat, t: FloatingText)
    ensures t in DeskTexts(texts, index) <==> t in texts && t.x == GridCol(index) && t.y == GridRow(index)
  {
    FilterMembers(texts, AtDesk(index));
  }

  /** A text spawned over the desk at `i` is shown there and at no other desk,
      and that desk is one of those rendered. */
  lemma SpawnedShownAtItsDesk(texts: seq<FloatingText>, t: FloatingText, i: nat, employeeCount: nat, j: nat)
    requires t in texts && t.x == GridCol(i) && t.y == GridRow(i) && i < employeeCount
    ensures i < DeskCount(employeeCount)
    ensures t in DeskTexts(texts, j) <==> j == i
  {
    DeskTextsExact(texts, j, t);
    GridCellUnique(i, j);
  }

  /** The seed of the avatar at desk `index`: `employee-${index}-${col}-${row}`,
      the four fields joined by dashes. */
  function EmployeeSeed(index: nat): string {
    Join(["employee", NatToString(index), NatToString(GridCol(index)), NatToString(GridRow(index))], "-")
  }

  /** Different desks get different avatar seeds. */
  lemma EmployeeSeedInjective(i: nat, j: nat)
    ensures EmployeeSeed(i) == EmployeeSeed(j) <==> i == j
  {
    if EmployeeSeed(i) == EmployeeSeed(j) {
      SeedHoldsIndex(i);
      SeedHoldsIndex(j);
      DigitsValueOfNat(i);
      DigitsValueOfNat(j);
    }
  }

  /** The seed's second dash-separated field is the index's decimal form. */
  lemma SeedHoldsIndex(index: nat)
    ensures var f := Split(EmployeeSeed(index), "-"); |f| == 4 && f[1] == NatToString(index)
  {
    var a, b, c := NatToString(index), NatToString(GridCol(index)), NatToString(GridRow(index));
    NoDashInDigits(a);
    NoDashInDigits(b);
    NoDashInDigits(c);
    SeedFields(a, b, c);
  }

  /** Splitting a seed at its dashes gives its four fields back. */
  lemma SeedFields(a: string, b: string, c: string)
    requires '-' !in a && '-' !in b && '-' !in c
    ensures Split(Join(["employee", a, b, c], "-"), "-") == ["employee", a, b, c]
  {
    var parts := ["employee", a, b, c];
    assert forall k :: 0 <= k < |parts| ==> '-' !in parts[k];
    SplitJoin(parts, '-');
  }

  lemma NoDashInDigits(s: string)
    requires AllAsciiDigits(s)
    ensures '-' !in s
  {
    forall i | 0 <= i < |s| ensures s[i] != '-' {
      assert IsAsciiDigit(s[i]);
    }
  }

  // ---------------------------------------------------------------------------
  // The scene's state
  // ---------------------------------------------------------------------------

  /** Whether `a` was spawned before `b`. */
  function IdBefore(a: FloatingText, b: FloatingText): bool {
    a.id < b.id
  }

  /** The test `removeText(id)` keeps. */
  function Without(id: int): FloatingText -> bool {
    (t: FloatingText) => t.id != id
  }

  /** Removing by id drops exactly the texts with that id. */
  lemma WithoutExact(texts: seq<FloatingText>, id: int, t: FloatingText)
    ensures t in Filter(texts, Without(id)) <==> t in texts && t.id != id
  {
    FilterMembers(texts, Without(id));
  }

  /** The component's state: its props, the `floatingTexts` list and the
      `textIdCounter` ref. */
  class Scene {
    var employeeCount: nat
    var dailyProfit: real
    var floatingTexts: seq<FloatingText>
    var counter: nat

    /** Texts are listed in spawn order, so their ids increase strictly; every
        id was issued by the counter; every text sits in a grid column and
        shows at least one. */
    ghost predicate Valid()
      reads this
    {
      OrderedBy(floatingTexts, IdBefore) &&
      forall k :: 0 <= k < |floatingTexts| ==>
        floatingTexts[k].id < counter && floatingTexts[k].x < Columns && floatingTexts[k].value >= 1
    }

    constructor(employeeCount: nat, dailyProfit: real)
      ensures Valid()
      ensures this.employeeCount == employeeCount && this.dailyProfit == dailyProfit
      ensures floatingTexts == [] && counter == 0
    {
      this.employeeCount := employeeCount;
      this.dailyProfit := dailyProfit;
      floatingTexts := [];
      counter := 0;
    }

    /** The parent re-renders the scene with new props; the state survives. */
    method SetProps(employeeCount: nat, dailyProfit: real)
      requires Valid()
      modifies this
      ensures Valid()
      ensures this.employeeCount == employeeCount && this.dailyProfit == dailyProfit
      ensures floatingTexts == old(floatingTexts) && counter == old(counter)
    {
      this.employeeCount := employeeCount;
      this.dailyProfit := dailyProfit;
    }

    /** `spawnMoney`, with `Math.random()` as `random`: nothing without
        employees; otherwise one text over a random desk, with the next id. */
    method SpawnMoney(random: real)
      requires 0.0 <= random < 1.0
      requires Valid()
      modifies this
      ensures Valid()
      ensures employeeCount == old(employeeCount) && dailyProfit == old(dailyProfit)
      ensures old(employeeCount) == 0 ==> floatingTexts == old(floatingTexts) && counter == old(counter)
      ensures old(employeeCount) > 0 ==>
        var i := PickIndex(random, old(employeeCount));
        floatingTexts == old(floatingTexts) + [FloatingText(old(counter), SpawnValue(old(dailyProfit)), GridCol(i), GridRow(i))] &&
        counter == old(counter) + 1
    {
      if employeeCount == 0 {
        return;
      }
      var randomIndex := PickIndex(random, employeeCount);
      var col := GridCol(randomIndex);
      var row := GridRow(randomIndex);
      var value := SpawnValue(dailyProfit);
      var newText := FloatingText(counter, value, col, row);
      counter := counter + 1;
      AppendKeepsOrder(floatingTexts, newText);
      floatingTexts := floatingTexts + [newText];
    }

    /** `removeText(id)`: drop the texts with that id, keep the rest in order. */
    method RemoveText(id: int)
      requires Valid()
      modifies this
      ensures Valid()
      ensures floatingTexts == Filter(old(floatingTexts), Without(id))
      ensures forall t :: t in floatingTexts <==> t in old(floatingTexts) && t.id != id
      ensures employeeCount == old(employeeCount) && dailyProfit == old(dailyProfit) && counter == old(counter)
    {
      var kept := Filter(floatingTexts, Without(id));
      FilterKeepsOrder(floatingTexts, Without(id), IdBefore);
      FilterMembers(floatingTexts, Without(id));
      forall k | 0 <= k < |kept|
        ensures kept[k].id < counter && kept[k].x < Columns && kept[k].value >= 1
      {
        assert kept[k] in floatingTexts;
      }
      floatingTexts := kept;
    }
  }

  /** Appending a text whose id exceeds every listed id keeps ids increasing. */
  lemma AppendKeepsOrder(texts: seq<FloatingText>, t: FloatingText)
    requires OrderedBy(texts, IdBefore)
    requires forall k :: 0 <= k < |texts| ==> texts[k].id < t.id
    ensures OrderedBy(texts + [t], IdBefore)
  {
    var s := texts + [t];
    forall i, j | 0 <= i < j < |s| ensures IdBefore(s[i], s[j]) {
      if j < |texts| {
        assert s[i] == texts[i] && s[j] == texts[j];
      } else {
        assert s[i] == texts[i];
      }
    }
  }

  /** Ids increase strictly along the list, so no two texts share one. */
  lemma IdsDistinct(texts: seq<FloatingText>, i: nat, j: nat)
    requires OrderedBy(texts, IdBefore)
    requires i < |texts| && j < |texts|
    ensures texts[i].id == texts[j].id <==> i == j
  {
    if i < j {
      assert IdBefore(texts[i], texts[j]);
    } else if j < i {
      assert IdBefore(texts[j], texts[i]);
    }
  }
}
