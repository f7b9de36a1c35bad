/**
 Slash-separated path strings: the standard library's `path.Clean` and
 `filepath.Rel`, and the layer filter that is built from them.
 */
module Paths {
  import opened Prelude

  predicate NoSlash(s: string) { '/' !in s }

  /** strings.Split(s, "/") */
  function Split(s: string): (words: seq<string>)
    ensures words != []
    ensures forall i :: 0 <= i < |words| ==> NoSlash(words[i])
  {
    if s == "" then [""]
    else if s[0] == '/' then [""] + Split(s[1..])
    else
      var rest := Split(s[1..]);
      [[s[0]] + rest[0]] + rest[1..]
  }

  /** strings.Join(words, "/") */
  function Join(words: seq<string>): string {
    if words == [] then ""
    else if |words| == 1 then words[0]
    else words[0] + "/" + Join(words[1..])
  }

  /** A cleaned path: whether it starts at the root, and its elements. */
  datatype CleanPath = CleanPath(rooted: bool, words: seq<string>) {
    /** No empty or "." element, and ".." only as a leading run of a path that is not rooted. */
    ghost predicate Normal() {
      forall i :: 0 <= i < |words| ==>
        && NoSlash(words[i]) && words[i] != "" && words[i] != "."
        && (words[i] == ".." ==> !rooted && forall j :: 0 <= j < i ==> words[j] == "..")
    }
  }

  /** One pass over the elements, each ".." taking back the element before it. */
  function Resolve(rooted: bool, done: seq<string>, rest: seq<string>): (words: seq<string>)
    decreases |rest|
  {
    if rest == [] then done
    else if rest[0] == "" || rest[0] == "." then Resolve(rooted, done, rest[1..])
    else if rest[0] != ".." then Resolve(rooted, done + [rest[0]], rest[1..])
    else if done != [] && done[|done| - 1] != ".." then Resolve(rooted, done[..|done| - 1], rest[1..])
    else if rooted then Resolve(rooted, done, rest[1..])
    else Resolve(rooted, done + [".."], rest[1..])
  }

  function Parse(s: string): CleanPath {
    var rooted := s != "" && s[0] == '/';
    CleanPath(rooted, Resolve(rooted, [], Split(s)))
  }

  function Render(p: CleanPath): string {
    if p.rooted then "/" + Join(p.words)
    else if p.words == [] then "."
    else Join(p.words)
  }

  /** path.Clean */
  function Clean(s: string): string {
    Render(Parse(s))
  }

  lemma {:induction false} ResolveIsNormal(rooted: bool, done: seq<string>, rest: seq<string>)
    requires CleanPath(rooted, done).Normal()
    requires forall i :: 0 <= i < |rest| ==> NoSlash(rest[i])
    ensures CleanPath(rooted, Resolve(rooted, done, rest)).Normal()
    decreases |rest|
  {
    if rest == [] {
    } else if rest[0] == "" || rest[0] == "." {
      ResolveIsNormal(rooted, done, rest[1..]);
    } else if rest[0] != ".." {
      ResolveIsNormal(rooted, done + [rest[0]], rest[1..]);
    } else if done != [] && done[|done| - 1] != ".." {
      ResolveIsNormal(rooted, done[..|done| - 1], rest[1..]);
    } else if rooted {
      ResolveIsNormal(rooted, done, rest[1..]);
    } else {
      ResolveIsNormal(rooted, done + [".."], rest[1..]);
    }
  }

  lemma ParseIsNormal(s: string)
    ensures Parse(s).Normal()
  {
    ResolveIsNormal(Parse(s).rooted, [], Split(s));
  }

  lemma {:induction false} SplitWord(w: string)
    requires NoSlash(w)
    ensures Split(w) == [w]
  {
    if w != "" {
      assert forall i :: 0 <= i < |w[1..]| ==> w[1..][i] == w[i + 1];
      SplitWord(w[1..]);
      assert [w[0]] + w[1..] == w;
    }
  }

  lemma {:induction false} SplitFirst(w: string, s: string)
    requires NoSlash(w)
    ensures Split(w + "/" + s) == [w] + Split(s)
  {
    var all := w + "/" + s;
    if w == "" {
      assert all[1..] == s;
    } else {
      assert forall i :: 0 <= i < |w[1..]| ==> w[1..][i] == w[i + 1];
      assert all[1..] == w[1..] + "/" + s;
      SplitFirst(w[1..], s);
      assert [w[0]] + w[1..] == w;
      assert ([w[1..]] + Split(s))[1..] == Split(s);
    }
  }

  lemma {:induction false} SplitJoin(words: seq<string>)
    requires words != [] && forall i :: 0 <= i < |words| ==> NoSlash(words[i])
    ensures Split(Join(words)) == words
  {
    if |words| == 1 {
      SplitWord(words[0]);
    } else {
      SplitJoin(words[1..]);
      SplitFirst(words[0], Join(words[1..]));
      assert words == [words[0]] + words[1..];
    }
  }

  lemma {:induction false} ResolveKeepsNormal(rooted: bool, done: seq<string>, rest: seq<string>)
    requires CleanPath(rooted, done + rest).Normal()
    ensures Resolve(rooted, done, rest) == done + rest
    decreases |rest|
  {
    if rest == [] {
    } else {
      var all := done + rest;
      assert all[|done|] == rest[0];
      assert done != [] ==> all[|done| - 1] == done[|done| - 1];
      assert done + [rest[0]] + rest[1..] == all;
      ResolveKeepsNormal(rooted, done + [rest[0]], rest[1..]);
    }
  }

  /** What `Parse` makes of a string, given its elements. */
  lemma ParseOf(s: string, rooted: bool, words: seq<string>)
    requires rooted <==> s != "" && s[0] == '/'
    requires Split(s) == words || Split(s) == [""] + words
    requires CleanPath(rooted, words).Normal()
    ensures Parse(s) == CleanPath(rooted, words)
  {
    assert [] + words == words;
    ResolveKeepsNormal(rooted, [], words);
    assert ([""] + words)[1..] == words;
  }

  lemma SplitOfEmpty()
    ensures Split("/") == ["", ""] && Split(".") == ["."]
    ensures Resolve(true, [], ["", ""]) == [] && Resolve(false, [], ["."]) == []
  {
    SplitFirst("", "");
    SplitWord(".");
    assert "" + "/" + "" == "/" && Split("") == [""];
    assert ["", ""][1..] == [""] && [""][1..] == [] && ["."][1..] == [];
  }

  /** Writing a cleaned path out and cleaning it again gives the same path. */
  lemma ParseRender(p: CleanPath)
    requires p.Normal()
    ensures Parse(Render(p)) == p
  {
    if p.words == [] {
      SplitOfEmpty();
    } else {
      SplitJoin(p.words);
      SplitFirst("", Join(p.words));
      assert "" + "/" + Join(p.words) == "/" + Join(p.words);
      assert !p.rooted ==> Render(p)[0] == p.words[0][0];
      ParseOf(Render(p), p.rooted, p.words);
    }
  }

  /** Going one element further. */
  function Descend(p: CleanPath, word: string): CleanPath {
    if word == "" || word == "." then p
    else if word != ".." then p.(words := p.words + [word])
    else if p.words != [] && p.words[|p.words| - 1] != ".." then p.(words := p.words[..|p.words| - 1])
    else if p.rooted then p
    else p.(words := p.words + [".."])
  }

  lemma {:induction false} SplitLast(s: string, word: string)
    requires NoSlash(word)
    ensures Split(s + "/" + word) == Split(s) + [word]
  {
    var all := s + "/" + word;
    if s == "" {
      assert all[1..] == word;
      SplitWord(word);
    } else {
      assert all[1..] == s[1..] + "/" + word;
      SplitLast(s[1..], word);
    }
  }

  lemma {:induction false} ResolveLast(rooted: bool, done: seq<string>, rest: seq<string>, word: string)
    ensures Resolve(rooted, done, rest + [word]) == Descend(CleanPath(rooted, Resolve(rooted, done, rest)), word).words
    decreases |rest|
  {
    if rest == [] {
      assert rest + [word] == [word] && [word][1..] == [];
    } else {
      assert (rest + [word])[1..] == rest[1..] + [word];
      if rest[0] == "" || rest[0] == "." {
        ResolveLast(rooted, done, rest[1..], word);
      } else if rest[0] != ".." {
        ResolveLast(rooted, done + [rest[0]], rest[1..], word);
      } else if done != [] && done[|done| - 1] != ".." {
        ResolveLast(rooted, done[..|done| - 1], rest[1..], word);
      } else if rooted {
        ResolveLast(rooted, done, rest[1..], word);
      } else {
        ResolveLast(rooted, done + [".."], rest[1..], word);
      }
    }
  }

  /** Cleaning a longer path is cleaning the shorter one and going on from there. */
  lemma ParseDescends(s: string, word: string)
    requires s != "" && NoSlash(word)
    ensures Parse(s + "/" + word) == Descend(Parse(s), word)
  {
    SplitLast(s, word);
    ResolveLast(Parse(s).rooted, [], Split(s), word);
  }

  /** Length of the longest common prefix. */
  function Common(a: seq<string>, b: seq<string>): (k: nat)
    ensures k <= |a| && k <= |b| && a[..k] == b[..k]
    ensures k < |a| && k < |b| ==> a[k] != b[k]
  {
    if a != [] && b != [] && a[0] == b[0] then
      var k := 1 + Common(a[1..], b[1..]);
      assert a[..k] == [a[0]] + a[1..][..k - 1];
      assert b[..k] == [b[0]] + b[1..][..k - 1];
      k
    else 0
  }

  /** The elements `filepath.Rel` compares: the empty relative target is the single word ".". */
  function TargetWords(t: CleanPath): (words: seq<string>) {
    if !t.rooted && t.words == [] then ["."] else t.words
  }

  /** The words of the relative path, or None where there is no lexical one. */
  function RelWords(b: CleanPath, t: CleanPath): Option<seq<string>> {
    if b == t then Some(["."])
    else if b.rooted != t.rooted then None
    else
      var words := TargetWords(t);
      var k := Common(b.words, words);
      if k < |b.words| && k < |words| && b.words[k] == ".." then None
      else Some(seq(|b.words| - k, _ => "..") + words[k..])
  }

  /** filepath.Rel on Unix, or None for its error. */
  function Rel(base: string, target: string): Option<string> {
    match RelWords(Parse(base), Parse(target))
    case None => None
    case Some(words) => Some(Join(words))
  }

  /** strings.TrimPrefix(s, "/") */
  function TrimSlash(s: string): string {
    if s != "" && s[0] == '/' then s[1..] else s
  }

  datatype Verdict = Keep | Drop | Refuse

  /** applyLayerFilter(srcPath) on a header called `name`; Refuse is the error return. */
  function LayerFilter(srcPath: string, name: string): Verdict {
    match Rel(Clean(TrimSlash(srcPath)), Clean(TrimSlash(name)))
    case None => Refuse
    case Some(rel) => if rel != ".." && !("../" <= rel) then Keep else Drop
  }

  lemma {:induction false} JoinStartsUp(words: seq<string>)
    requires words != [] && forall i :: 0 <= i < |words| ==> NoSlash(words[i])
    ensures Join(words) == ".." || "../" <= Join(words) <==> words[0] == ".."
  {
    var s := Join(words);
    if |words| > 1 {
      SplitFirst(words[0], Join(words[1..]));
      assert s == words[0] + "/" + Join(words[1..]);
      if "../" <= s {
        SplitFirst("..", s[3..]);
        assert s == ".." + "/" + s[3..];
        assert Split(s)[0] == "..";
      }
      if s == ".." { SplitWord(".."); }
    } else {
      assert forall i :: 0 <= i < |s| ==> s[i] != "../"[2];
    }
  }

  /** The first place where the source goes up and the name does not follow it. */
  ghost predicate EscapesAt(src: seq<string>, name: seq<string>, k: nat) {
    k < |src| && k < |name| && src[..k] == name[..k] && src[k] == ".." && name[k] != ".."
  }

  ghost predicate Within(src: CleanPath, target: CleanPath) {
    && src.rooted == target.rooted && src.words <= target.words
    && (src.words != target.words ==> target.words[|src.words|] != "..")
  }

  ghost predicate Incomparable(src: CleanPath, target: CleanPath) {
    || src.rooted != target.rooted
    || (src != target && exists k: nat :: EscapesAt(src.words, TargetWords(target), k))
  }

  /** The relative path does not go up exactly when the target lies within the source. */
  lemma RelWordsExact(src: CleanPath, target: CleanPath)
    requires src.Normal() && target.Normal()
    ensures RelWords(src, target).None? <==> Incomparable(src, target)
    ensures RelWords(src, target).Some? ==>
      var rel := RelWords(src, target).value;
      && rel != [] && (forall i :: 0 <= i < |rel| ==> NoSlash(rel[i]))
      && (rel[0] != ".." <==> Within(src, target))
  {
    if src != target && src.rooted == target.rooted {
      var words := TargetWords(target);
      var k := Common(src.words, words);
      if k < |src.words| && k < |words| && src.words[k] == ".." {
        assert EscapesAt(src.words, words, k);
      } else {
        assert k == |src.words| ==> k < |words|;
      }
    }
  }

  /**
   What the filter decides, for every source path and every header name: it keeps exactly
   what lies component-wise at or below the source, and refuses exactly what cannot be compared.
   */
  lemma FilterExact(srcPath: string, name: string)
    ensures var src, target := Parse(TrimSlash(srcPath)), Parse(TrimSlash(name));
      && (LayerFilter(srcPath, name) == Keep <==> Within(src, target))
      && (LayerFilter(srcPath, name) == Refuse <==> Incomparable(src, target))
  {
    var src, target := Parse(TrimSlash(srcPath)), Parse(TrimSlash(name));
    ParseIsNormal(TrimSlash(srcPath));
    ParseIsNormal(TrimSlash(name));
    ParseRender(src);
    ParseRender(target);
    RelWordsExact(src, target);
    if RelWords(src, target).Some? {
      JoinStartsUp(RelWords(src, target).value);
    } else {
      assert !Within(src, target);
    }
  }

  predicate StartsUp(p: CleanPath) { p.words != [] && p.words[0] == ".." }

  predicate DoubleSlash(s: string) { "//" <= s }

  lemma TrimmedIsRelative(s: string)
    requires !DoubleSlash(s)
    ensures !Parse(TrimSlash(s)).rooted
  {
    assert s != "" && s[0] == '/' && TrimSlash(s) != "" ==> s[1] == TrimSlash(s)[0];
  }

  /**
   Below a source that does not go up, every relative name can be compared, and lies within by
   prefix alone.
   */
  lemma DownwardSource(src: CleanPath, target: CleanPath)
    requires src.Normal() && target.Normal() && !src.rooted && !target.rooted && !StartsUp(src)
    ensures !Incomparable(src, target)
    ensures Within(src, target) <==> src.words <= target.words && !StartsUp(target)
  {
    assert forall k :: 0 <= k < |src.words| ==> src.words[k] != "..";
  }

  /** The documented use: at most one leading slash on each side, and a source that does not go up. */
  lemma FilterKeepsSubtree(srcPath: string, name: string)
    requires !DoubleSlash(srcPath) && !DoubleSlash(name)
    requires !StartsUp(Parse(TrimSlash(srcPath)))
    ensures var src, target := Parse(TrimSlash(srcPath)), Parse(TrimSlash(name));
      && !src.rooted && !target.rooted
      && LayerFilter(srcPath, name) ==
         if src.words <= target.words && !StartsUp(target) then Keep else Drop
  {
    TrimmedIsRelative(srcPath);
    TrimmedIsRelative(name);
    FilterExact(srcPath, name);
    var src, target := Parse(TrimSlash(srcPath)), Parse(TrimSlash(name));
    ParseIsNormal(TrimSlash(srcPath));
    ParseIsNormal(TrimSlash(name));
    DownwardSource(src, target);
  }

  predicate LeadingSlash(s: string) { s != "" && s[0] == '/' }

  /** One leading slash makes no difference, neither on the source path nor on the header's name. */
  lemma SlashMakesNoDifference(srcPath: string, name: string)
    requires !LeadingSlash(srcPath) && !LeadingSlash(name)
    ensures LayerFilter("/" + srcPath, name) == LayerFilter(srcPath, name)
    ensures LayerFilter(srcPath, "/" + name) == LayerFilter(srcPath, name)
    ensures LayerFilter("/" + srcPath, "/" + name) == LayerFilter(srcPath, name)
  {
    assert ("/" + srcPath)[1..] == srcPath && ("/" + name)[1..] == name;
  }

  /** Elements as they are named: not empty, no slash in them, neither "." nor "..". */
  ghost predicate PlainElements(words: seq<string>) {
    forall i :: 0 <= i < |words| ==> NoSlash(words[i]) && words[i] != "" && words[i] != "." && words[i] != ".."
  }

  /** A path written out of plain elements reads back as these, with a leading "/" or "./" or without. */
  lemma PlainReadsBack(words: seq<string>)
    requires PlainElements(words)
    ensures Parse(Join(words)) == CleanPath(false, words) && !LeadingSlash(Join(words))
    ensures Parse("/" + Join(words)) == CleanPath(true, words)
    ensures Parse("./" + Join(words)) == CleanPath(false, words)
  {
    ParseRender(CleanPath(true, words));
    DotSlash(Join(words));
    if words == [] {
      SplitOfEmpty();
      assert Split("") == [""] && [""][1..] == [];
    } else {
      ParseRender(CleanPath(false, words));
      assert words[0][0] in words[0];
      assert Join(words)[0] == words[0][0];
    }
  }

  lemma DotSlash(s: string)
    requires !LeadingSlash(s)
    ensures Parse("./" + s) == Parse(s)
  {
    SplitFirst(".", s);
    assert "." + "/" + s == "./" + s;
    assert ([] + ["."] + Split(s))[1..] == Split(s);
  }

  /**
   The filter on paths written out of plain elements: keep exactly what has the source's elements
   as a prefix.
   */
  lemma FilterOnElements(src: seq<string>, name: seq<string>)
    requires PlainElements(src) && PlainElements(name)
    ensures var verdict := if src <= name then Keep else Drop;
      && LayerFilter(Join(src), Join(name)) == verdict && LayerFilter("/" + Join(src), Join(name)) == verdict
      && LayerFilter(Join(src), "/" + Join(name)) == verdict
          && LayerFilter("/" + Join(src), "/" + Join(name)) == verdict
      && LayerFilter(Join(src), "./" + Join(name)) == verdict
          && LayerFilter("/" + Join(src), "./" + Join(name)) == verdict
  {
    PlainReadsBack(src);
    PlainReadsBack(name);
    SlashMakesNoDifference(Join(src), Join(name));
    SlashMakesNoDifference(Join(src), "./" + Join(name));
    PlainIsJudged(Join(src), Join(name));
    PlainIsJudged(Join(src), "./" + Join(name));
  }

  lemma PlainIsJudged(srcPath: string, name: string)
    requires !LeadingSlash(srcPath) && !LeadingSlash(name)
    requires !StartsUp(Parse(srcPath)) && !StartsUp(Parse(name))
    ensures LayerFilter(srcPath, name) == if Parse(srcPath).words <= Parse(name).words then Keep else Drop
  {
    FilterKeepsSubtree(srcPath, name);
  }
}
