/** The blog article index: every compiled article module found under the
    posts directory becomes an entry keyed by its slug (the file name without
    `.mdx`), titled by the article's first level-one heading, or by its slug
    when it has none. Modules without a default component are skipped. */
module Blog {
  import opened Wrappers
  import opened Text

  /** The identity of a compiled article component; it is only stored. */
  datatype Component = Component(id: nat)

  datatype Article = Article(slug: string, title: string, component: Component)

  /** What the raw import of a path yields: the text itself, or a module
      whose default export is the text when it is a string. */
  datatype RawModule = RawText(text: string) | RawObject(defaultExport: Option<string>)

  /** The last `/`-separated segment of a path. */
  function LastSegment(path: string): (r: string)
    ensures !Contains(r, "/")
  {
    var parts := Split(path, "/");
    SplitPiecesFree(path, "/");
    parts[|parts| - 1]
  }

  /** The slug: the last path segment with its first `.mdx` removed. */
  function Slug(path: string): (r: string)
    ensures !Contains(LastSegment(path), ".mdx") ==> r == LastSegment(path)
    ensures Contains(LastSegment(path), ".mdx") ==> |r| == |LastSegment(path)| - 4
  {
    ReplaceFirst(LastSegment(path), ".mdx", "")
  }

  /** `s` contains the one-character string `[c]` exactly when some character of `s` is `c`. */
  lemma ContainsChar(s: string, c: char)
    ensures Contains(s, [c]) <==> exists i :: 0 <= i < |s| && s[i] == c
  {
    if Contains(s, [c]) {
      var i: nat :| i <= |s| && OccursAt(s, [c], i);
      assert s[i..i + 1] == [c];
      assert s[i] == c;
    }
    if exists i :: 0 <= i < |s| && s[i] == c {
      var i :| 0 <= i < |s| && s[i] == c;
      assert s[i..i + 1] == [c];
      assert OccursAt(s, [c], i);
    }
  }

  /** A slug never contains a `/`, so it names a single file. */
  lemma SlugHasNoSlash(path: string)
    ensures !Contains(Slug(path), "/")
  {
    var seg := LastSegment(path);
    ContainsChar(seg, '/');
    ContainsChar(Slug(path), '/');
    match IndexOf(seg, ".mdx")
    case None =>
    case Some(i) =>
      var r := Slug(path);
      assert r == seg[..i] + seg[i + 4..];
      forall k | 0 <= k < |r| ensures r[k] != '/' {
        if k < i {
          assert r[k] == seg[k];
        } else {
          assert r[k] == seg[k + 4];
        }
      }
  }

  /** `^` in multiline mode: the start of the text or just after a line terminator. */
  predicate LineStart(s: string, p: nat)
    requires p <= |s|
  {
    p == 0 || IsLineTerminator(s[p - 1])
  }

  /** The heading pattern `^#\s+(.+)$` (multiline) can match at `p` with its
      group starting at `q`: a line-start `#`, one or more white-space
      characters, then a character that is not a line terminator (from which
      the group runs to the end of the line). */
  predicate Candidate(s: string, p: nat, q: nat)
  {
    p + 1 < q < |s| && LineStart(s, p) && s[p] == '#' &&
    (forall i :: p + 1 <= i < q ==> IsWhitespace(s[i])) && !IsLineTerminator(s[q])
  }

  /** The end of the white-space run starting at `i`. */
  function WhitespaceEnd(s: string, i: nat): (r: nat)
    requires i <= |s|
    decreases |s| - i
    ensures i <= r <= |s|
    ensures forall k :: i <= k < r ==> IsWhitespace(s[k])
    ensures r < |s| ==> !IsWhitespace(s[r])
  {
    if i < |s| && IsWhitespace(s[i]) then WhitespaceEnd(s, i + 1) else i
  }

  /** Backtracking of the greedy `\s+`: the last position at or before `q`
      where the group can start. */
  function Backtrack(s: string, p: nat, q: nat): (r: Option<nat>)
    requires p + 1 <= q < |s|
    requires forall i :: p + 1 <= i < q ==> IsWhitespace(s[i])
    decreases q
    ensures r.Some? ==> p + 1 < r.value <= q && !IsLineTerminator(s[r.value])
    ensures forall j :: p + 1 < j <= q && (r.None? || r.value < j) ==> IsLineTerminator(s[j])
  {
    if q == p + 1 then None
    else if !IsLineTerminator(s[q]) then Some(q)
    else Backtrack(s, p, q - 1)
  }

  /** Where the group starts when the pattern is tried at `p`: the greatest
      candidate, as greedy `\s+` prefers. */
  function MatchAt(s: string, p: nat): (r: Option<nat>)
    requires p < |s|
    ensures r.Some? ==> Candidate(s, p, r.value)
    ensures forall q: nat :: Candidate(s, p, q) ==> r.Some? && q <= r.value
  {
    if !(LineStart(s, p) && s[p] == '#') then None
    else
      var e := WhitespaceEnd(s, p + 1);
      if e == p + 1 then None
      else
        var start := if e < |s| then e else |s| - 1;
        var r := Backtrack(s, p, start);
        assert forall q: nat :: Candidate(s, p, q) ==> q <= start by {
          forall q: nat | Candidate(s, p, q) ensures q <= start {
          }
        }
        r
  }

  /** The leftmost match at or after `from`: where it starts and where its group starts. */
  function FirstMatch(s: string, from: nat): (r: Option<(nat, nat)>)
    decreases |s| - from
    ensures r.Some? ==> from <= r.value.0 && Candidate(s, r.value.0, r.value.1)
    ensures r.Some? ==> forall q: nat :: Candidate(s, r.value.0, q) ==> q <= r.value.1
    ensures forall p: nat, q: nat :: from <= p && Candidate(s, p, q) ==> r.Some? && r.value.0 <= p
  {
    if from >= |s| then None
    else
      match MatchAt(s, from)
      case Some(q) => Some((from, q))
      case None => FirstMatch(s, from + 1)
  }

  /** The end of the line that position `q` is on (`.+` stops there and `$` matches). */
  function LineEnd(s: string, q: nat): (e: nat)
    requires q <= |s|
    decreases |s| - q
    ensures q <= e <= |s|
    ensures forall k :: q <= k < e ==> !IsLineTerminator(s[k])
    ensures e < |s| ==> IsLineTerminator(s[e])
  {
    if q < |s| && !IsLineTerminator(s[q]) then LineEnd(s, q + 1) else q
  }

  /** The capture group of `content.match(/^#\s+(.+)$/m)`, if the pattern matches. */
  function Heading(s: string): (r: Option<string>)
    ensures r.Some? <==> exists p: nat, q: nat :: Candidate(s, p, q)
  {
    match FirstMatch(s, 0)
    case None => None
    case Some((p, q)) => Some(s[q..LineEnd(s, q)])
  }

  /** The group is one whole line's remainder: non-empty and free of line terminators. */
  lemma HeadingIsOneLine(s: string)
    requires Heading(s).Some?
    ensures |Heading(s).value| > 0
    ensures forall k :: 0 <= k < |Heading(s).value| ==> !IsLineTerminator(Heading(s).value[k])
  {
    var (p, q) := FirstMatch(s, 0).value;
    assert q < LineEnd(s, q);
  }

  /** The trimmed heading, or the slug when there is none. */
  function Title(content: string, slug: string): (r: string)
    ensures Heading(content).None? ==> r == slug
    ensures Heading(content).Some? ==> |r| <= |Heading(content).value|
    ensures Heading(content).Some? && |r| > 0 ==> !IsWhitespace(r[0]) && !IsWhitespace(r[|r| - 1])
  {
    match Heading(content)
    case None => slug
    case Some(g) => Trim(g)
  }

  /** The raw text of a path: the module if it is a string, else its string
      default export, else empty. */
  function RawContent(raw: map<string, RawModule>, path: string): (r: string)
    ensures path !in raw ==> r == ""
  {
    if path !in raw then ""
    else match raw[path]
      case RawText(t) => t
      case RawObject(Some(t)) => t
      case RawObject(None) => ""
  }

  lemma ArticlesStep(entries: seq<(string, Option<Component>)>, raw: map<string, RawModule>, i: nat)
    requires i < |entries|
    ensures Articles(entries[..i + 1], raw) == Add(Articles(entries[..i], raw), entries[i], raw)
  {
    assert entries[..i + 1][..i] == entries[..i];
  }

  /** Entry `i` puts an article under key `k`. */
  predicate Contributes(entries: seq<(string, Option<Component>)>, i: int, k: string)
  {
    0 <= i < |entries| && entries[i].1.Some? && k != "" && Slug(entries[i].0) == k
  }

  function ArticleOf(entry: (string, Option<Component>), raw: map<string, RawModule>): Article
    requires entry.1.Some?
  {
    Article(Slug(entry.0), Title(RawContent(raw, entry.0), Slug(entry.0)), entry.1.value)
  }

  /** The effect of one path on the index. */
  function Add(items: map<string, Article>, entry: (string, Option<Component>), raw: map<string, RawModule>): map<string, Article>
  {
    if entry.1.None? || Slug(entry.0) == "" then items
    else items[Slug(entry.0) := ArticleOf(entry, raw)]
  }

  /** The index built from the paths in order. */
  function Articles(entries: seq<(string, Option<Component>)>, raw: map<string, RawModule>): (r: map<string, Article>)
    ensures forall k :: k in r ==> r[k].slug == k
  {
    if |entries| == 0 then map[]
    else Add(Articles(entries[..|entries| - 1], raw), entries[|entries| - 1], raw)
  }

  /** `processArticles`: walks the component modules in order. */
  method ProcessArticles(entries: seq<(string, Option<Component>)>, raw: map<string, RawModule>)
    returns (items: map<string, Article>)
    ensures items == Articles(entries, raw)
  {
    items := map[];
    var i := 0;
    while i < |entries|
      invariant 0 <= i <= |entries|
      invariant items == Articles(entries[..i], raw)
    {
      var (path, component) := entries[i];
      ArticlesStep(entries, raw, i);
      i := i + 1;
      var slug := Slug(path);
      if component.None? {
        continue;
      }
      var title := Title(RawContent(raw, path), slug);
      if slug != "" {
        items := items[slug := Article(slug, title, component.value)];
      }
    }
    assert entries[..i] == entries;
  }

  /** A key is present exactly when some path contributes it. */
  lemma {:induction false} PresentIffContributed(entries: seq<(string, Option<Component>)>, raw: map<string, RawModule>, k: string)
    ensures k in Articles(entries, raw) <==> exists i :: Contributes(entries, i, k)
  {
    if |entries| > 0 {
      var n := |entries| - 1;
      var p := entries[..n];
      PresentIffContributed(p, raw, k);
      assert forall i :: 0 <= i < n ==> (Contributes(p, i, k) <==> Contributes(entries, i, k));
      assert k in Articles(entries, raw) <==> k in Articles(p, raw) || Contributes(entries, n, k);
      if k in Articles(p, raw) {
        var i :| Contributes(p, i, k);
        assert Contributes(entries, i, k);
      }
      if exists i :: Contributes(entries, i, k) {
        var i :| Contributes(entries, i, k);
        if i < n {
          assert Contributes(p, i, k);
        }
      }
    }
  }

  /** The article under a key is the one of the last path contributing it:
      a later path with the same slug overwrites an earlier one. */
  lemma {:induction false} LastContributorWins(entries: seq<(string, Option<Component>)>, raw: map<string, RawModule>, k: string, i: int)
    requires Contributes(entries, i, k)
    requires forall j :: i < j < |entries| ==> !Contributes(entries, j, k)
    ensures k in Articles(entries, raw) && Articles(entries, raw)[k] == ArticleOf(entries[i], raw)
  {
    var n := |entries| - 1;
    var p := entries[..n];
    if i < n {
      assert forall j :: 0 <= j < n ==> (Contributes(p, j, k) <==> Contributes(entries, j, k));
      LastContributorWins(p, raw, k, i);
      assert !Contributes(entries, n, k);
    }
  }

  /** Every stored article carries its own key as slug; keys are non-empty and free of `/`. */
  lemma {:induction false} KeysAreSlugs(entries: seq<(string, Option<Component>)>, raw: map<string, RawModule>)
    ensures forall k :: k in Articles(entries, raw) ==>
              Articles(entries, raw)[k].slug == k && k != "" && !Contains(k, "/")
  {
    if |entries| > 0 {
      var n := |entries| - 1;
      KeysAreSlugs(entries[..n], raw);
      SlugHasNoSlash(entries[n].0);
    }
  }

  /** There are never more articles than paths. */
  lemma {:induction false} AtMostOneArticlePerPath(entries: seq<(string, Option<Component>)>, raw: map<string, RawModule>)
    ensures |Articles(entries, raw).Keys| <= |entries|
  {
    if |entries| > 0 {
      var n := |entries| - 1;
      var prev := Articles(entries[..n], raw);
      AtMostOneArticlePerPath(entries[..n], raw);
      var slug := Slug(entries[n].0);
      assert Articles(entries, raw).Keys <= prev.Keys + {slug};
      SubsetCard(Articles(entries, raw).Keys, prev.Keys + {slug});
    }
  }

  lemma SubsetCard<T>(a: set<T>, b: set<T>)
    requires a <= b
    ensures |a| <= |b|
  {
    assert b == a + (b - a);
  }

  /** A path whose module has no default component adds nothing. */
  lemma SkipsMissingComponent(entries: seq<(string, Option<Component>)>, raw: map<string, RawModule>, path: string)
    ensures Articles(entries + [(path, None)], raw) == Articles(entries, raw)
  {
    assert (entries + [(path, None)])[..|entries|] == entries;
  }

  /** Splitting at a one-character separator: the last piece is whatever
      follows the last separator. */
  lemma {:induction false} SplitLastPiece(x: string, sep: string, y: string)
    requires |sep| == 1 && !Contains(y, sep)
    decreases |x|
    ensures var parts := Split(x + sep + y, sep); parts[|parts| - 1] == y
  {
    var s := x + sep + y;
    assert OccursAt(s, sep, |x|);
    var i := IndexOf(s, sep).value;
    assert i <= |x|;
    assert Split(s, sep) == [s[..i]] + Split(s[i + 1..], sep);
    if i == |x| {
      assert s[i + 1..] == y;
      assert IndexOf(y, sep).None?;
    } else {
      assert s[i + 1..] == x[i + 1..] + sep + y;
      SplitLastPiece(x[i + 1..], sep, y);
    }
  }

  /** The slug of `<dir>/<name>.mdx` is `name`, for a file name free of `/` and of `.mdx`. */
  lemma SlugOfPost(dir: string, name: string)
    requires !Contains(name, "/") && !Contains(name, ".mdx")
    ensures Slug(dir + "/" + name + ".mdx") == name
  {
    var file := name + ".mdx";
    ContainsChar(name, '/');
    ContainsChar(file, '/');
    assert dir + "/" + name + ".mdx" == dir + "/" + file;
    SplitLastPiece(dir, "/", file);
    assert LastSegment(dir + "/" + file) == file;
    var n := |name|;
    assert OccursAt(file, ".mdx", n);
    forall j: nat | j < n ensures !OccursAt(file, ".mdx", j) {
      if j + 4 <= n {
        assert file[j..j + 4] == name[j..j + 4];
        assert !OccursAt(name, ".mdx", j);
      } else {
        assert file[n] == '.' && ".mdx"[n - j] != '.';
        assert j + 4 <= |file| ==> file[j..j + 4][n - j] == file[n];
      }
    }
    assert IndexOf(file, ".mdx") == Some(n);
    assert file[..n] + "" + file[n + 4..] == name;
  }

  /** A text whose first line is `# ` followed by a title line is titled by
      that line, trimmed. */
  lemma TitleOfHeadingLine(t: string, rest: string, slug: string)
    requires |t| > 0 && !IsWhitespace(t[0])
    requires forall k :: 0 <= k < |t| ==> !IsLineTerminator(t[k])
    requires |rest| == 0 || IsLineTerminator(rest[0])
    ensures Title("# " + t + rest, slug) == Trim(t)
  {
    var s := "# " + t + rest;
    assert s[2] == t[0];
    assert Candidate(s, 0, 2);
    assert MatchAt(s, 0) == Some(2);
    assert FirstMatch(s, 0) == Some((0, 2));
    var e := LineEnd(s, 2);
    assert forall k :: 0 <= k < |t| ==> s[2 + k] == t[k];
    assert forall k :: 2 <= k < 2 + |t| ==> !IsLineTerminator(s[k]);
    assert 2 + |t| == |s| || IsLineTerminator(s[2 + |t|]);
    assert e == 2 + |t|;
    assert s[2..e] == t;
  }

  /** Without a `#` in the text the title falls back to the slug. */
  lemma NoHashMeansSlugTitle(content: string, slug: string)
    requires forall k :: 0 <= k < |content| ==> content[k] != '#'
    ensures Title(content, slug) == slug
  {
  }

  lemma TrimKeeps(t: string)
    requires |t| > 0 && !IsWhitespace(t[0]) && !IsWhitespace(t[|t| - 1])
    ensures Trim(t) == t
  {
  }

  /** A name without dots or slashes contains neither `/` nor `.mdx`. */
  lemma PlainName(name: string)
    requires forall k :: 0 <= k < |name| ==> name[k] != '.' && name[k] != '/'
    ensures !Contains(name, "/") && !Contains(name, ".mdx")
  {
    ContainsChar(name, '/');
    forall j: nat | j <= |name| ensures !OccursAt(name, ".mdx", j) {
      if j + 4 <= |name| {
        assert name[j..j + 4][0] == name[j];
      }
    }
  }

  function Single(path: string, component: Option<Component>, raw: RawModule): map<string, Article>
  {
    Articles([(path, component)], map[path := raw])
  }

  lemma SingleArticle(path: string, c: Component, raw: RawModule, slug: string, title: string)
    requires Slug(path) == slug && slug != ""
    requires Title(RawContent(map[path := raw], path), slug) == title
    ensures Single(path, Some(c), raw) == map[slug := Article(slug, title, c)]
  {
    assert [(path, Some(c))][..0] == [];
    assert Articles([], map[path := raw]) == map[];
  }

  lemma HeadingText()
    ensures "# My Great Post\n\nSome content." == "# " + "My Great Post" + "\n\nSome content."
  {
    var a, b := "# My Great Post\n\nSome content.", "# " + "My Great Post" + "\n\nSome content.";
    forall i | 0 <= i < |a| ensures a[i] == b[i] {}
  }

  lemma DirectText()
    ensures "# Direct String Title" == "# " + "Direct String Title" + ""
  {
    var a, b := "# Direct String Title", "# " + "Direct String Title" + "";
    forall i | 0 <= i < |a| ensures a[i] == b[i] {}
  }

  lemma HeadingTitle()
    ensures Title("# My Great Post\n\nSome content.", "test") == "My Great Post"
  {
    HeadingText();
    TitleOfHeadingLine("My Great Post", "\n\nSome content.", "test");
    TrimKeeps("My Great Post");
  }

  lemma PostSlug(name: string)
    requires forall k :: 0 <= k < |name| ==> name[k] != '.' && name[k] != '/'
    ensures Slug("./posts/" + name + ".mdx") == name
  {
    PlainName(name);
    SlugOfPost("./posts", name);
    assert "./posts/" + name + ".mdx" == "./posts" + "/" + name + ".mdx";
  }

  lemma TestPath()
    ensures "./posts/test.mdx" == "./posts/" + "test" + ".mdx"
  {
    var a, b := "./posts/test.mdx", "./posts/" + "test" + ".mdx";
    forall i | 0 <= i < |a| ensures a[i] == b[i] {}
  }

  lemma NoTitlePath()
    ensures "./posts/no-title.mdx" == "./posts/" + "no-title" + ".mdx"
  {
    var a, b := "./posts/no-title.mdx", "./posts/" + "no-title" + ".mdx";
    forall i | 0 <= i < |a| ensures a[i] == b[i] {}
  }

  lemma StringRawPath()
    ensures "./posts/string-raw.mdx" == "./posts/" + "string-raw" + ".mdx"
  {
    var a, b := "./posts/string-raw.mdx", "./posts/" + "string-raw" + ".mdx";
    forall i | 0 <= i < |a| ensures a[i] == b[i] {}
  }

  /** A post with a level-one heading is titled by it. */
  lemma HeadingTitleExample(c: Component)
    ensures Single("./posts/test.mdx", Some(c), RawObject(Some("# My Great Post\n\nSome content."))) ==
            map["test" := Article("test", "My Great Post", c)]
  {
    PostSlug("test");
    TestPath();
    HeadingTitle();
    SingleArticle("./posts/test.mdx", c, RawObject(Some("# My Great Post\n\nSome content.")), "test", "My Great Post");
  }

  /** A post without a heading is titled by its slug. */
  lemma SlugTitleExample(c: Component)
    ensures Single("./posts/no-title.mdx", Some(c), RawObject(Some("Just some content without a header."))) ==
            map["no-title" := Article("no-title", "no-title", c)]
  {
    PostSlug("no-title");
    NoTitlePath();
    NoHashMeansSlugTitle("Just some content without a header.", "no-title");
    SingleArticle("./posts/no-title.mdx", c, RawObject(Some("Just some content without a header.")), "no-title", "no-title");
  }

  lemma DirectTitle()
    ensures Title("# Direct String Title", "string-raw") == "Direct String Title"
  {
    DirectText();
    TitleOfHeadingLine("Direct String Title", "", "string-raw");
    TrimKeeps("Direct String Title");
  }

  /** A raw import that is the text itself is read directly. */
  lemma RawTextExample(c: Component)
    ensures Single("./posts/string-raw.mdx", Some(c), RawText("# Direct String Title")) ==
            map["string-raw" := Article("string-raw", "Direct String Title", c)]
  {
    PostSlug("string-raw");
    StringRawPath();
    DirectTitle();
    SingleArticle("./posts/string-raw.mdx", c, RawText("# Direct String Title"), "string-raw", "Direct String Title");
  }

  /** A module without a default component yields no article. */
  lemma MissingComponentExample()
    ensures "broken" !in Single("./posts/broken.mdx", None, RawObject(Some("# Broken")))
  {
    var entries: seq<(string, Option<Component>)> := [("./posts/broken.mdx", None)];
    assert entries[..0] == [];
    assert Articles([], map["./posts/broken.mdx" := RawObject(Some("# Broken"))]) == map[];
  }
}
