/** The tab bar: which of the five tabs is highlighted for the current
    path. The path is checked, in order, for being the root or the input
    page, then for starting with the path of each other tab; anything else
    highlights the input tab. */
module Navigation {
  import opened Text

  datatype Tab = Tab(id: string, title: string, path: string)

  /** The tabs, in the order they are drawn. */
  function Tabs(): (r: seq<Tab>)
    ensures |r| == 5
  {
    [Tab("inputs", "Input", "/inputs"), Tab("results", "Output", "/results"), Tab("history", "History", "/history"),
     Tab("blog", "Blog", "/blog"), Tab("account", "Account", "/account")]
  }

  /** `activeIndex`, over the prefixes of tabs 1 to 4. */
  function ActiveIndexFor(prefixes: seq<string>, path: string): (r: nat)
    requires |prefixes| == 4
    ensures r < 5
    ensures r == 0 <==> path == "/" || path == "/inputs" || forall k :: 0 <= k < 4 ==> !StartsWith(path, prefixes[k])
    ensures r > 0 ==> path != "/" && path != "/inputs" && StartsWith(path, prefixes[r - 1]) &&
                      forall k :: 0 <= k < r - 1 ==> !StartsWith(path, prefixes[k])
  {
    if path == "/" || path == "/inputs" then 0
    else if StartsWith(path, prefixes[0]) then 1
    else if StartsWith(path, prefixes[1]) then 2
    else if StartsWith(path, prefixes[2]) then 3
    else if StartsWith(path, prefixes[3]) then 4
    else 0
  }

  /** The tab paths after the input tab, as the source tests them. */
  function Prefixes(): (r: seq<string>)
    ensures |r| == 4 && forall k :: 0 <= k < 4 ==> r[k] == Tabs()[k + 1].path
  {
    ["/results", "/history", "/blog", "/account"]
  }

  function ActiveIndex(path: string): (r: nat)
    ensures r < |Tabs()|
  {
    ActiveIndexFor(Prefixes(), path)
  }

  /** Tab `index` is drawn highlighted. */
  predicate Highlighted(path: string, index: nat) {
    index == ActiveIndex(path)
  }

  /** Exactly one of the five tabs is highlighted. */
  lemma ExactlyOneHighlighted(path: string)
    ensures exists i :: 0 <= i < |Tabs()| && Highlighted(path, i)
    ensures forall i, j :: 0 <= i < j < |Tabs()| ==> !(Highlighted(path, i) && Highlighted(path, j))
  {
    assert Highlighted(path, ActiveIndex(path));
  }

  /** None of the tab paths starts with the path of another tab. */
  lemma PrefixesDisjoint(prefixes: seq<string>, s: string, i: nat, j: nat)
    requires prefixes == Prefixes() && i < 4 && j < 4 && i != j
    ensures !StartsWith(prefixes[i] + s, prefixes[j])
  {
    var p, q := prefixes[i] + s, prefixes[j];
    assert p[1] == prefixes[i][1] && q[1] == prefixes[j][1];
    assert prefixes[i][1] != prefixes[j][1];
  }

  /** A page under a tab's path highlights that tab. */
  lemma PagesUnderTabHighlightTab(i: nat, s: string)
    requires i < |Tabs()|
    ensures ActiveIndex(Tabs()[i].path + s) == i
  {
    var path := Tabs()[i].path + s;
    var prefixes := Prefixes();
    forall k | 0 <= k < 4 && k + 1 != i ensures !StartsWith(path, prefixes[k]) {
      if i == 0 {
        assert path[1] == 'i' && prefixes[k][1] != 'i';
      } else {
        PrefixesDisjoint(prefixes, s, i - 1, k);
      }
    }
    if i > 0 {
      assert path[..|prefixes[i - 1]|] == prefixes[i - 1];
      assert path != "/" && path != "/inputs" by {
        assert |path| >= 5 && path[1] == prefixes[i - 1][1] != 'i';
      }
    }
  }

  /** The router serves the output page at `/output`, and the input tab is
      highlighted there, because no tab tests for that path. */
  lemma OutputPageHighlightsInput()
    ensures ActiveIndex("/output") == 0 && Tabs()[1].title == "Output"
  {
    var path := "/output";
    forall k | 0 <= k < 4 ensures !StartsWith(path, Prefixes()[k]) {
      assert path[1] == 'o' && Prefixes()[k][1] != 'o';
    }
  }

  /** The tabs with the output tab pointing at the router's `/output`; all
      else is as in `Tabs`. */
  function TabsFixed(): (r: seq<Tab>)
    ensures |r| == |Tabs()| && r[1].path == "/output"
    ensures forall i :: 0 <= i < |r| ==> r[i].id == Tabs()[i].id && r[i].title == Tabs()[i].title
    ensures forall i :: 0 <= i < |r| && i != 1 ==> r[i] == Tabs()[i]
  {
    Tabs()[1 := Tab("results", "Output", "/output")]
  }

  /** The paths of the fixed tabs after the input tab. */
  function PrefixesFixed(): (r: seq<string>)
    ensures |r| == 4 && forall k :: 0 <= k < 4 ==> r[k] == TabsFixed()[k + 1].path
  {
    ["/output", "/history", "/blog", "/account"]
  }

  function ActiveIndexFixed(path: string): (r: nat)
    ensures r < 5
  {
    ActiveIndexFor(PrefixesFixed(), path)
  }

  /** With `/output`, every page the router serves highlights the tab of the
      same name: the input tab for `/` and `/inputs`, and tab `k + 1` for every
      page under the `k`-th fixed prefix. */
  lemma FixedHighlightsRoutes(k: nat, s: string)
    requires k < 4
    ensures ActiveIndexFixed("/") == 0 && ActiveIndexFixed("/inputs") == 0
    ensures ActiveIndexFixed(PrefixesFixed()[k] + s) == k + 1
    ensures ActiveIndexFixed(TabsFixed()[k + 1].path + s) == k + 1
  {
    var prefixes := PrefixesFixed();
    var path := prefixes[k] + s;
    forall j | 0 <= j < k ensures !StartsWith(path, prefixes[j]) {
      assert path[1] == prefixes[k][1] != prefixes[j][1];
    }
    assert path[..|prefixes[k]|] == prefixes[k];
    assert path != "/" && path != "/inputs" by {
      assert |path| >= 5 && path[1] == prefixes[k][1];
    }
  }
}
