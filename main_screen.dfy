/** The main screen (components/MainScreen.tsx): the catalog flattened into one channel list,
    the channel grid's cell arithmetic, and the sidebar selection. */
module MainScreen {
  import opened Types
  import opened Grouping

  const CardMinWidth := 140
  const AllCategories := "All"

  datatype MainView = Categories | Favorites | History

  // ---------------------------------------------------------------------------
  // allChannels

  /** `cat.channels.map(c => ({...c, group: cat.name}))`. */
  function Relabel(cs: seq<Channel>, group: string): (r: seq<Channel>)
    ensures |r| == |cs|
    ensures forall k :: 0 <= k < |cs| ==> r[k] == cs[k].(group := group)
  {
    if cs == [] then [] else [cs[0].(group := group)] + Relabel(cs[1..], group)
  }

  /** The number of channels in the catalog. */
  function Total(cats: seq<Category>): nat {
    if cats == [] then 0 else |cats[0].channels| + Total(cats[1..])
  }

  /** `categories.flatMap(...)`. */
  function Flatten(cats: seq<Category>): (r: seq<Channel>)
    ensures |r| == Total(cats)
  {
    if cats == [] then [] else Relabel(cats[0].channels, cats[0].name) + Flatten(cats[1..])
  }

  lemma {:induction false} TotalConcat(a: seq<Category>, b: seq<Category>)
    ensures Total(a + b) == Total(a) + Total(b)
  {
    if a == [] {
      assert a + b == b;
    } else {
      assert (a + b)[1..] == a[1..] + b;
      TotalConcat(a[1..], b);
    }
  }

  /** Flattening goes category after category. */
  lemma {:induction false} FlattenConcat(a: seq<Category>, b: seq<Category>)
    ensures Flatten(a + b) == Flatten(a) + Flatten(b)
  {
    if a == [] {
      assert a + b == b;
    } else {
      assert (a + b)[1..] == a[1..] + b;
      FlattenConcat(a[1..], b);
    }
  }

  /** Channel `j` of category `i` sits at the offset of all earlier categories plus `j`, with its
      group replaced by the category's name and every other field as it was. */
  lemma FlattenAt(cats: seq<Category>, i: nat, j: nat)
    requires i < |cats| && j < |cats[i].channels|
    ensures Total(cats[..i]) + j < Total(cats)
    ensures Flatten(cats)[Total(cats[..i]) + j] == cats[i].channels[j].(group := cats[i].name)
  {
    var before, here, after := cats[..i], [cats[i]], cats[i + 1..];
    assert cats == before + here + after;
    FlattenConcat(before + here, after);
    FlattenConcat(before, here);
    TotalConcat(before + here, after);
    TotalConcat(before, here);
    assert Flatten(here) == Relabel(cats[i].channels, cats[i].name) by {
      assert here[1..] == [];
    }
    assert Total(here) == |cats[i].channels| by {
      assert here[1..] == [];
    }
  }

  /** Every channel of a category already carries the category's name. */
  predicate Labelled(cats: seq<Category>) {
    forall i, j :: 0 <= i < |cats| && 0 <= j < |cats[i].channels| ==> cats[i].channels[j].group == cats[i].name
  }

  lemma {:induction false} FlattenLabelled(cats: seq<Category>)
    requires Labelled(cats)
    ensures Flatten(cats) == ChannelsOf(cats)
  {
    if cats != [] {
      var cs := cats[0].channels;
      assert Relabel(cs, cats[0].name) == cs;
      assert Labelled(cats[1..]) by {
        forall i, j | 0 <= i < |cats[1..]| && 0 <= j < |cats[1..][i].channels|
          ensures cats[1..][i].channels[j].group == cats[1..][i].name
        {
          assert cats[1..][i] == cats[i + 1];
        }
      }
      FlattenLabelled(cats[1..]);
    }
  }

  /** For a catalog the parser built from channels that all name their group (as every parsed
      channel does), flattening gives back exactly the parsed channels, each once. */
  lemma FlattenGroupPermutes(chs: seq<Channel>)
    requires forall k :: 0 <= k < |chs| ==> chs[k].group != ""
    ensures multiset(Flatten(Group(chs))) == multiset(chs)
  {
    var cats := Group(chs);
    forall i, j | 0 <= i < |cats| && 0 <= j < |cats[i].channels| ensures cats[i].channels[j].group == cats[i].name {
      var c := cats[i].channels[j];
      assert GroupName(c) == cats[i].name && c in chs;
    }
    FlattenLabelled(cats);
    GroupPermutes(chs);
  }

  // ---------------------------------------------------------------------------
  // The grid

  /** `Math.max(1, Math.floor(width / 140))`: as many columns of the minimum card width as fit,
      and always at least one. */
  function ColumnCount(width: nat): (n: nat)
    ensures n >= 1
    ensures width >= CardMinWidth ==> n * CardMinWidth <= width < (n + 1) * CardMinWidth
    ensures width < CardMinWidth ==> n == 1
  {
    if width / CardMinWidth < 1 then 1 else width / CardMinWidth
  }

  /** `rowIndex * columnCount + columnIndex`. */
  function CellIndex(row: nat, col: nat, columns: nat): nat {
    row * columns + col
  }

  /** `Math.ceil(n / columnCount)`: the fewest rows that hold `n` cards. */
  function RowCount(n: nat, columns: nat): (rows: nat)
    requires columns >= 1
    ensures rows * columns >= n
    ensures rows > 0 ==> (rows - 1) * columns < n
  {
    (n + columns - 1) / columns
  }

  /** A cell renders a card only when its index is below the channel count. */
  predicate Renders(row: nat, col: nat, columns: nat, n: nat) {
    CellIndex(row, col, columns) < n
  }

  /** A non-zero multiple of `n` is at least `n` away from zero. */
  lemma {:induction false} MultipleAtLeast(k: nat, n: nat)
    ensures k > 0 ==> k * n >= n
  {
    if k > 1 {
      MultipleAtLeast(k - 1, n);
      assert k * n == (k - 1) * n + n;
    }
  }

  lemma MultipleBound(k: int, n: nat)
    ensures k > 0 ==> k * n >= n
    ensures k < 0 ==> k * n + n <= 0
  {
    if k >= 0 {
      MultipleAtLeast(k, n);
    } else {
      MultipleAtLeast(-k, n);
      assert (-k) * n == -(k * n);
    }
  }

  /** Every channel index has a cell inside the grid that shows it. */
  lemma GridCovers(n: nat, columns: nat, index: nat)
    requires columns >= 1 && index < n
    ensures var row, col := index / columns, index % columns;
            row < RowCount(n, columns) && col < columns && CellIndex(row, col, columns) == index
  {
    var row, rows := index / columns, RowCount(n, columns);
    assert row * columns <= index;
    assert (rows - row) * columns == rows * columns - row * columns;
    MultipleBound(rows - row, columns);
  }

  /** No two cells within the columns show the same channel. */
  lemma GridUnique(columns: nat, r1: nat, c1: nat, r2: nat, c2: nat)
    requires c1 < columns && c2 < columns
    requires CellIndex(r1, c1, columns) == CellIndex(r2, c2, columns)
    ensures r1 == r2 && c1 == c2
  {
    assert (r1 - r2) * columns == r1 * columns - r2 * columns;
    MultipleBound(r1 - r2, columns);
  }

  /** The cell of row `r` and column `c` is the one `GridCovers` assigns to its index. */
  lemma DivisionOfCell(r: nat, c: nat, columns: nat)
    requires c < columns
    ensures CellIndex(r, c, columns) / columns == r && CellIndex(r, c, columns) % columns == c
  {
    var i := CellIndex(r, c, columns);
    var q, m := i / columns, i % columns;
    assert q * columns + m == r * columns + c;
    assert (q - r) * columns == q * columns - r * columns;
    MultipleBound(q - r, columns);
  }

  // ---------------------------------------------------------------------------
  // Sidebar state

  /** What the screen sends to the filter, which is not part of this model. */
  datatype FilterPayload = FilterPayload(allChannels: seq<Channel>, mainView: MainView, selectedCategory: string,
                                         searchTerm: string, favorites: seq<string>, history: seq<string>)

  class Sidebar {
    var mainView: MainView
    var selectedCategory: string

    constructor ()
      ensures mainView == Categories && selectedCategory == AllCategories
    {
      mainView := Categories;
      selectedCategory := AllCategories;
    }

    /** A sidebar tab: switching to another view resets the category to `All`; choosing the
        view already shown changes nothing, so no reset happens. */
    method SetMainView(v: MainView)
      modifies this
      ensures mainView == v
      ensures selectedCategory == if v != old(mainView) then AllCategories else old(selectedCategory)
    {
      if v != mainView {
        mainView := v;
        selectedCategory := AllCategories;
      }
    }

    method SelectCategory(name: string)
      modifies this
      ensures selectedCategory == name && mainView == old(mainView)
    {
      selectedCategory := name;
    }

    /** The filter effect: no request while a playlist is loading, otherwise the current
        selection with the flattened catalog. */
    function FilterRequest(cats: seq<Category>, searchTerm: string, favorites: seq<string>, history: seq<string>,
                           isLoading: bool): (r: Option<FilterPayload>)
      reads this
      ensures r.None? <==> isLoading
      ensures r.Some? ==> r.value.allChannels == Flatten(cats) && r.value.mainView == mainView
                          && r.value.selectedCategory == selectedCategory && r.value.searchTerm == searchTerm
    {
      if isLoading then None
      else Some(FilterPayload(Flatten(cats), mainView, selectedCategory, searchTerm, favorites, history))
    }
  }
}
