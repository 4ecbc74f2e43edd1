/** The file names and the index page links of the generated site: every tab
    of every configured name has a csv download under data/ and a chart
    under out/, and out/index.html links to every chart. File creation,
    the downloads, the rendering and the goroutines around them are not
    modelled. */
module Site {
  import opened Wrappers
  import opened GoText
  import Config

  // ---------------------------------------------------------------------
  // getFilePath
  // ---------------------------------------------------------------------

  /** getFilePath: '.', ' ' and '\' in the name become '-', then come a '-',
      the tab index in decimal and the extension. */
  function GetFilePath(name: string, index: int, extension: string): string {
    var n1 := Replace(name, '.', '-');
    var n2 := Replace(n1, ' ', '-');
    var n3 := Replace(n2, '\\', '-');
    Replace(n3, '.', '-') + "-" + IntDecimal(index) + extension
  }

  /** The characters that cannot appear in a file name of the site. */
  predicate Unsafe(c: char) {
    c == '.' || c == ' ' || c == '\\'
  }

  /** The reference sanitisation: each unsafe character becomes '-', every
      other character stays. */
  function Sanitize(name: string): string {
    seq(|name|, i requires 0 <= i < |name| => if Unsafe(name[i]) then '-' else name[i])
  }

  /** The chain of replacements is the one-pass sanitisation. */
  lemma ReplaceChainSanitizes(name: string)
    ensures Replace(Replace(Replace(Replace(name, '.', '-'), ' ', '-'), '\\', '-'), '.', '-') == Sanitize(name)
    ensures Replace(Replace(Replace(name, '.', '-'), ' ', '-'), '\\', '-') == Sanitize(name)
  {
  }

  /** The file path is the sanitised name, '-', the index and the extension. */
  lemma GetFilePathLayout(name: string, index: int, extension: string)
    ensures GetFilePath(name, index, extension) == Sanitize(name) + "-" + IntDecimal(index) + extension
  {
  }

  /** Sanitising keeps the length and every safe character, and puts '-' in
      place of every unsafe one. */
  lemma SanitizeKeepsSafe(name: string)
    ensures |Sanitize(name)| == |name|
    ensures forall i :: 0 <= i < |name| && !Unsafe(name[i]) ==> Sanitize(name)[i] == name[i]
    ensures forall i :: 0 <= i < |name| && Unsafe(name[i]) ==> Sanitize(name)[i] == '-'
  {
  }

  /** A sanitised name has no unsafe character left. */
  lemma SanitizeSafe(name: string)
    ensures forall i :: 0 <= i < |Sanitize(name)| ==> !Unsafe(Sanitize(name)[i])
  {
  }

  lemma SanitizeIdempotent(name: string)
    ensures Sanitize(Sanitize(name)) == Sanitize(name)
  {
  }

  /** The last replacement of '.' finds none left: the first one removed them
      all and the two in between put in only '-'. */
  lemma FinalReplaceRedundant(name: string)
    ensures var n3 := Replace(Replace(Replace(name, '.', '-'), ' ', '-'), '\\', '-');
            '.' !in n3 && Replace(n3, '.', '-') == n3
  {
  }

  /** Two tabs of one name get different file names. */
  lemma FilePathIndexInjective(name: string, i: nat, j: nat, extension: string)
    requires GetFilePath(name, i, extension) == GetFilePath(name, j, extension)
    ensures i == j
  {
    GetFilePathLayout(name, i, extension);
    GetFilePathLayout(name, j, extension);
    var prefix := Sanitize(name) + "-";
    var di, dj := NatDecimal(i), NatDecimal(j);
    assert prefix + di + extension == prefix + dj + extension;
    assert |di| == |dj|;
    assert di == (prefix + di + extension)[|prefix|..|prefix| + |di|];
    assert dj == (prefix + dj + extension)[|prefix|..|prefix| + |dj|];
    NatDecimalInjective(i, j);
  }

  /** Names that differ only in unsafe characters share their files. */
  lemma FilePathCollision()
    ensures GetFilePath("Acme.Inc", 0, ".csv") == GetFilePath("Acme Inc", 0, ".csv")
  {
  }

  // ---------------------------------------------------------------------
  // The site's paths
  // ---------------------------------------------------------------------

  /** Where the csv download of a tab is saved. */
  function DataPath(name: string, index: int): string {
    "data/" + GetFilePath(name, index, ".csv")
  }

  /** Where the chart of a tab is saved. */
  function OutPath(name: string, index: int): string {
    "out/" + GetFilePath(name, index, ".html")
  }

  /** The link to the chart of a tab, relative to out/index.html. */
  function LinkPath(name: string, index: int): string {
    "./" + GetFilePath(name, index, ".html")
  }

  /** A link of the index page, resolved against out/ where the index page
      lives, names the file the chart was saved to. */
  lemma LinkResolvesToChart(name: string, index: int)
    ensures LinkPath(name, index)[..2] == "./"
    ensures "out/" + LinkPath(name, index)[2..] == OutPath(name, index)
  {
  }

  /** Downloads and charts never share a path. */
  lemma DataAndChartsApart(name: string, i: int, other: string, j: int)
    ensures DataPath(name, i) != OutPath(other, j)
  {
    assert DataPath(name, i)[0] == 'd';
    assert OutPath(other, j)[0] == 'o';
  }

  // ---------------------------------------------------------------------
  // The links of the index page
  // ---------------------------------------------------------------------

  datatype Link = Link(link: string, text: string)

  /** The link of tab i of a name. */
  function LinkFor(name: string, i: int, tab: Config.TickerConfig): Link {
    Link(LinkPath(name, i), Sprintf("%s (%s)", [Str(name), Str(tab.period)]))
  }

  /** The text of a link is the name and the tab's period in parentheses. */
  lemma LinkText(name: string, i: int, tab: Config.TickerConfig)
    ensures LinkFor(name, i, tab).text == name + " (" + tab.period + ")"
  {
    assert "%s (%s)" == "" + ['%', 's'] + " (" + ['%', 's'] + ")";
    SprintfTwo("", 's', " (", 's', ")", Str(name), Str(tab.period));
    assert "" + name == name;
  }

  /** The links of the tabs of one name, in tab order. */
  function LinksOf(name: string, tabs: seq<Config.TickerConfig>): seq<Link> {
    seq(|tabs|, i requires 0 <= i < |tabs| => LinkFor(name, i, tabs[i]))
  }

  /** The links of every tab, the names taken in the given order. */
  function LinksInOrder(config: Config.Config, order: seq<string>): seq<Link>
    requires forall k :: 0 <= k < |order| ==> order[k] in config
  {
    if order == [] then []
    else LinksInOrder(config, order[..|order| - 1])
         + LinksOf(order[|order| - 1], config[order[|order| - 1]])
  }

  /** An order that visits every name of the configuration exactly once. */
  predicate Enumerates(config: Config.Config, order: seq<string>) {
    |order| == |config.Keys|
    && (forall k :: 0 <= k < |order| ==> order[k] in config)
    && (forall k, l :: 0 <= k < l < |order| ==> order[k] != order[l])
  }

  /** The total number of tabs of the names in the order. */
  function TabCount(config: Config.Config, order: seq<string>): nat
    requires forall k :: 0 <= k < |order| ==> order[k] in config
  {
    if order == [] then 0
    else TabCount(config, order[..|order| - 1]) + |config[order[|order| - 1]]|
  }

  /** The htmlLinks loop of saveToLocal: for each name, in the map's
      iteration order (which Go leaves open, `order` records it), one link
      per tab in tab order. */
  method HtmlLinks(config: Config.Config) returns (links: seq<Link>, ghost order: seq<string>)
    ensures Enumerates(config, order)
    ensures links == LinksInOrder(config, order)
    ensures forall name, i :: name in config && 0 <= i < |config[name]| ==>
              LinkFor(name, i, config[name][i]) in links
    ensures forall l :: l in links ==>
              exists name, i :: name in config && 0 <= i < |config[name]| && l == LinkFor(name, i, config[name][i])
  {
    links := [];
    order := [];
    var remaining := config.Keys;
    while remaining != {}
      invariant remaining <= config.Keys
      invariant forall k :: 0 <= k < |order| ==> order[k] in config && order[k] !in remaining
      invariant forall k, l :: 0 <= k < l < |order| ==> order[k] != order[l]
      invariant |order| + |remaining| == |config.Keys|
      invariant forall name :: name in config && name !in remaining ==> name in order
      invariant links == LinksInOrder(config, order)
      decreases |remaining|
    {
      var name :| name in remaining;
      var tabs := config[name];
      ghost var before := links;
      for i := 0 to |tabs|
        invariant links == before + LinksOf(name, tabs[..i])
      {
        assert LinksOf(name, tabs[..i + 1]) == LinksOf(name, tabs[..i]) + [LinkFor(name, i, tabs[i])];
        links := links + [LinkFor(name, i, tabs[i])];
      }
      assert tabs[..|tabs|] == tabs;
      ghost var visited := order;
      order := order + [name];
      assert order[..|order| - 1] == visited;
      remaining := remaining - {name};
    }
    LinksOfEveryName(config, order);
  }

  /** Every tab of every enumerated name has its link. */
  lemma {:induction false} LinksComplete(config: Config.Config, order: seq<string>, k: nat, i: nat)
    requires forall m :: 0 <= m < |order| ==> order[m] in config
    requires k < |order| && i < |config[order[k]]|
    ensures LinkFor(order[k], i, config[order[k]][i]) in LinksInOrder(config, order)
    decreases |order|
  {
    var last := order[|order| - 1];
    if k == |order| - 1 {
      assert LinksOf(last, config[last])[i] == LinkFor(order[k], i, config[order[k]][i]);
    } else {
      LinksComplete(config, order[..|order| - 1], k, i);
    }
  }

  /** Every link belongs to a tab of an enumerated name. */
  lemma {:induction false} LinksSound(config: Config.Config, order: seq<string>, link: Link)
    requires forall m :: 0 <= m < |order| ==> order[m] in config
    requires link in LinksInOrder(config, order)
    ensures exists k, i :: 0 <= k < |order| && 0 <= i < |config[order[k]]|
                           && link == LinkFor(order[k], i, config[order[k]][i])
    decreases |order|
  {
    var init := order[..|order| - 1];
    var last := order[|order| - 1];
    if link in LinksInOrder(config, init) {
      LinksSound(config, init, link);
      var k, i :| 0 <= k < |init| && 0 <= i < |config[init[k]]| && link == LinkFor(init[k], i, config[init[k]][i]);
      assert order[k] == init[k];
    } else {
      assert link in LinksOf(last, config[last]);
      var i :| 0 <= i < |config[last]| && link == LinkFor(last, i, config[last][i]);
      assert order[|order| - 1] == last;
    }
  }

  /** When the order visits every name, the links are those of every tab of
      every name and no others. */
  lemma LinksOfEveryName(config: Config.Config, order: seq<string>)
    requires forall m :: 0 <= m < |order| ==> order[m] in config
    requires forall name :: name in config ==> name in order
    ensures forall name, i :: name in config && 0 <= i < |config[name]| ==>
              LinkFor(name, i, config[name][i]) in LinksInOrder(config, order)
    ensures forall l :: l in LinksInOrder(config, order) ==>
              exists name, i :: name in config && 0 <= i < |config[name]| && l == LinkFor(name, i, config[name][i])
  {
    forall name, i | name in config && 0 <= i < |config[name]|
      ensures LinkFor(name, i, config[name][i]) in LinksInOrder(config, order)
    {
      var k :| 0 <= k < |order| && order[k] == name;
      LinksComplete(config, order, k, i);
    }
    forall l | l in LinksInOrder(config, order)
      ensures exists name, i :: name in config && 0 <= i < |config[name]| && l == LinkFor(name, i, config[name][i])
    {
      LinksSound(config, order, l);
    }
  }

  /** There is one link per tab. */
  lemma {:induction false} LinksCount(config: Config.Config, order: seq<string>)
    requires forall m :: 0 <= m < |order| ==> order[m] in config
    ensures |LinksInOrder(config, order)| == TabCount(config, order)
    decreases |order|
  {
    if order != [] {
      LinksCount(config, order[..|order| - 1]);
    }
  }
}
