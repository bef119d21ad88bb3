/**
 * app/models/doc_page.rb: the documentation pages read from Markdown files
 * with an optional YAML frontmatter block. The YAML parser, the Markdown
 * renderer and ActiveSupport's `titleize` are parameters; the directory
 * listing is the sequence of files handed to `All`.
 */
module DocPages {
  import opened Common

  /** The frontmatter keys the page reads; a YAML document without them leaves them None. */
  datatype Frontmatter = Frontmatter(title: Option<string>, icon: Option<string>, order: Option<int>)

  const NO_FRONTMATTER := Frontmatter(None, None, None)

  datatype DocPage = DocPage(id: string, title: string, icon: string, order: int, content: string)

  /** A Markdown file: its base name without ".md", and its text. */
  datatype DocFile = DocFile(id: string, raw: string)

  /** The library steps the loader calls. */
  datatype Libraries = Libraries(
    yaml: string -> Option<Frontmatter>,
    render: string -> string,
    titleize: string -> string)

  const DELIMITER := "---"

  /**
   * `extract_frontmatter`: for text starting with "---", `split("---", 3)`
   * cuts at the first two delimiters, so the block is the text up to the
   * next "---" and the body is everything after it, stripped; later "---"
   * stay in the body. Anything else, including an unclosed block, is
   * returned unchanged with no frontmatter.
   */
  function ExtractFrontmatter(content: string, yaml: string -> Option<Frontmatter>): (r: (Frontmatter, string))
    ensures !StartsWith(content, DELIMITER) ==> r == (NO_FRONTMATTER, content)
    ensures StartsWith(content, DELIMITER) && IndexFrom(content, DELIMITER, 3).None? ==> r == (NO_FRONTMATTER, content)
  {
    if StartsWith(content, DELIMITER) then
      match IndexFrom(content, DELIMITER, 3)
      case None => (NO_FRONTMATTER, content)
      case Some(j) =>
        var fm := match yaml(content[3..j]) case Some(f) => f case None => NO_FRONTMATTER;
        (fm, RubyStrip(content[j + 3..]))
    else (NO_FRONTMATTER, content)
  }

  /**
   * A closed block "---A---B" yields A's frontmatter and B stripped,
   * whatever B holds. A block ending in '-' is excluded: its closing
   * delimiter would be found one character early.
   */
  lemma FrontmatterBlock(a: string, b: string, yaml: string -> Option<Frontmatter>)
    requires !Contains(a, DELIMITER) && (|a| == 0 || a[|a| - 1] != '-')
    ensures var r := ExtractFrontmatter(DELIMITER + a + DELIMITER + b, yaml);
            r.0 == (match yaml(a) case Some(f) => f case None => NO_FRONTMATTER)
            && r.1 == RubyStrip(b)
  {
    var s := DELIMITER + a + DELIMITER + b;
    ClosingDelimiter(a, b);
    assert s[..3] == DELIMITER;
  }

  /** In "---A---B" the first "---" after the opening one is the one right after A. */
  lemma ClosingDelimiter(a: string, b: string)
    requires !Contains(a, DELIMITER) && (|a| == 0 || a[|a| - 1] != '-')
    ensures var s := DELIMITER + a + DELIMITER + b;
            IndexFrom(s, DELIMITER, 3) == Some(3 + |a|) && s[3..3 + |a|] == a && s[3 + |a| + 3..] == b
  {
    var s := DELIMITER + a + DELIMITER + b;
    var t := a + DELIMITER + b;
    assert s == DELIMITER + t;
    var k := 3 + |a|;
    assert s[3..] == t && t[..|a|] == a && t[|a|..|a| + 3] == DELIMITER && t[|a| + 3..] == b;
    assert s[3..k] == a;
    assert OccursAt(s, DELIMITER, k);
    ContainsIff(a, DELIMITER);
    forall j | 3 <= j < k
      ensures !OccursAt(s, DELIMITER, j)
    {
      NoEarlierDelimiter(s, a, j);
    }
  }

  lemma NoEarlierDelimiter(s: string, a: string, j: nat)
    requires |s| >= 3 + |a| + 3 && s[3..3 + |a|] == a && 3 <= j < 3 + |a|
    requires forall i :: !OccursAt(a, DELIMITER, i)
    requires a[|a| - 1] != '-'
    ensures !OccursAt(s, DELIMITER, j)
  {
    var k := 3 + |a|;
    if j + 3 <= k {
      var inA, inS := a[j - 3..j], s[j..j + 3];
      forall i | 0 <= i < 3
        ensures inA[i] == inS[i]
      {
        assert a[j - 3 + i] == s[3..k][j - 3 + i];
      }
      assert inA == inS;
      assert !OccursAt(a, DELIMITER, j - 3);
    } else {
      // A delimiter straddling the end of `a` would cover its last character.
      assert s[k - 1] == s[3..k][|a| - 1] == a[|a| - 1];
      assert s[j..j + 3][k - 1 - j] == s[k - 1];
      assert DELIMITER[k - 1 - j] == '-';
    }
  }

  /** `parse_doc_file`: missing keys default to the titleized id, the "file" icon and order 999. */
  function ParseDocFile(f: DocFile, libs: Libraries): (p: DocPage)
    ensures p.id == f.id
    ensures var fm := ExtractFrontmatter(f.raw, libs.yaml).0;
            p.title == (if fm.title.Some? then fm.title.value else libs.titleize(f.id))
            && p.icon == (if fm.icon.Some? then fm.icon.value else "file")
            && p.order == (if fm.order.Some? then fm.order.value else 999)
  {
    var (fm, body) := ExtractFrontmatter(f.raw, libs.yaml);
    DocPage(f.id,
            match fm.title case Some(t) => t case None => libs.titleize(f.id),
            match fm.icon case Some(i) => i case None => "file",
            match fm.order case Some(o) => o case None => 999,
            libs.render(body))
  }

  /** `load_all_docs`: one page per file, in listing order. */
  function LoadAll(disk: seq<DocFile>, libs: Libraries): (pages: seq<DocPage>)
    ensures |pages| == |disk|
    ensures forall i :: 0 <= i < |disk| ==> pages[i] == ParseDocFile(disk[i], libs)
  {
    seq(|disk|, i requires 0 <= i < |disk| => ParseDocFile(disk[i], libs))
  }

  function OrderOf(p: DocPage): int { p.order }

  predicate SortedByOrder(pages: seq<DocPage>)
  {
    SortedBy(pages, OrderOf)
  }

  /** `sort_by(&:order)`: the same pages, ascending by order. */
  function SortByOrder(pages: seq<DocPage>): (r: seq<DocPage>)
    ensures SortedByOrder(r)
    ensures multiset(r) == multiset(pages)
  {
    SortBy(pages, OrderOf)
  }

  /** The page catalogue with its class-level `@all` cache. */
  class Catalog {
    var cache: Option<seq<DocPage>>
    const libs: Libraries

    ghost predicate Valid()
      reads this
    {
      cache.Some? ==> SortedByOrder(cache.value)
    }

    constructor (libs: Libraries)
      ensures Valid() && cache == None && this.libs == libs
    {
      cache := None;
      this.libs := libs;
    }

    /**
     * `all`: the first call after a (re)load reads `disk`, parses and sorts
     * it, and remembers the result; later calls answer the remembered pages
     * whatever `disk` holds by then.
     */
    method All(disk: seq<DocFile>) returns (pages: seq<DocPage>)
      requires Valid()
      modifies this
      ensures Valid() && cache == Some(pages) && SortedByOrder(pages)
      ensures old(cache).Some? ==> pages == old(cache).value
      ensures old(cache).None? ==> pages == SortByOrder(LoadAll(disk, libs))
    {
      if cache.None? {
        cache := Some(SortByOrder(LoadAll(disk, libs)));
      }
      pages := cache.value;
    }

    /** `find`: the first page (in `all` order) with this id, or RecordNotFound. */
    method Find(id: string, disk: seq<DocFile>) returns (r: Result<DocPage, string>)
      requires Valid()
      modifies this
      ensures Valid() && cache.Some?
      ensures old(cache).Some? ==> cache == old(cache)
      ensures old(cache).None? ==> cache == Some(SortByOrder(LoadAll(disk, libs)))
      ensures r.Ok? ==> r.value in cache.value && r.value.id == id
      ensures r.Err? <==> forall p :: p in cache.value ==> p.id != id
      ensures r.Err? ==> r.error == "Doc '" + id + "' not found"
    {
      var pages := All(disk);
      match FirstIndex(pages, (p: DocPage) => p.id == id)
      case Some(i) => r := Ok(pages[i]);
      case None => r := Err("Doc '" + id + "' not found");
    }

    /** `reload!`: forgets the remembered pages. */
    method Reload()
      modifies this
      ensures cache == None && Valid()
    {
      cache := None;
    }
  }

  /** Sorting keeps every loaded file's page: each file on disk is found by `all`. */
  lemma EveryFileListed(disk: seq<DocFile>, libs: Libraries, i: nat)
    requires i < |disk|
    ensures ParseDocFile(disk[i], libs) in SortByOrder(LoadAll(disk, libs))
  {
    var loaded := LoadAll(disk, libs);
    assert loaded[i] in multiset(loaded);
  }
}
