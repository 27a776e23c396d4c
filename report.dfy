/**
  The image section of the feedback report: one markdown image embed per image
  the glob found for the match, with the match GUID as alt text and the image's
  base name as the link.
 */
module Report {
  import opened Wrappers
  import Paths

  /** The images the glob yields: its readable entries in order, or none when the
      pattern itself is rejected. */
  function DiscoveredImages(glob: Result<seq<Option<string>>, string>): (r: seq<string>)
    ensures glob.Err? ==> r == []
    ensures glob.Ok? ==> forall p :: p in r <==> Some(p) in glob.value
  {
    match glob
    case Err(_) => []
    case Ok(entries) => Somes(entries)
  }

  /** The glob's entries are kept in the order it yields them: the images of a
      concatenation of entries are those of its parts, in turn. */
  lemma DiscoveredImagesAppend(a: seq<Option<string>>, b: seq<Option<string>>)
    ensures DiscoveredImages(Ok(a + b)) == DiscoveredImages(Ok(a)) + DiscoveredImages(Ok(b))
  {
    SomesAppend(a, b);
  }

  /** A readable entry is one image, an unreadable entry none. */
  lemma DiscoveredImagesSingle(x: Option<string>)
    ensures DiscoveredImages(Ok([x])) == if x.Some? then [x.value] else []
  {
    SomesSingle(x);
  }

  /** An image the glob yields twice is embedded twice: each path occurs among the images
      as often as the glob yields it. */
  lemma DiscoveredImagesCount(entries: seq<Option<string>>, p: string)
    ensures multiset(DiscoveredImages(Ok(entries)))[p] == multiset(entries)[Some(p)]
  {
    SomesCount(entries, p);
  }

  /** `![<guid>](<file name>)` and a line break. */
  function EmbedLine(guid: string, image: string): string
  {
    "![" + guid + "](" + Paths.Basename(image) + ")\n"
  }

  /** The embed lines of `images`, in list order. */
  function EmbedLines(guid: string, images: seq<string>): string
    decreases |images|
  {
    if images == [] then ""
    else EmbedLines(guid, images[..|images| - 1]) + EmbedLine(guid, images[|images| - 1])
  }

  /** `image_markdown`, built by pushing one embed line per image. */
  method ImageMarkdown(guid: string, images: seq<string>) returns (md: string)
    ensures md == EmbedLines(guid, images)
  {
    md := "";
    for i := 0 to |images|
      invariant md == EmbedLines(guid, images[..i])
    {
      assert images[..i + 1][..i] == images[..i];
      md := md + EmbedLine(guid, images[i]);
    }
    assert images[..|images|] == images;
  }

  function CountNewlines(s: string): nat
    decreases |s|
  {
    if s == [] then 0 else (if s[0] == '\n' then 1 else 0) + CountNewlines(s[1..])
  }

  lemma {:induction false} CountNewlinesAppend(a: string, b: string)
    ensures CountNewlines(a + b) == CountNewlines(a) + CountNewlines(b)
    decreases |a|
  {
    if a == [] {
      assert a + b == b;
    } else {
      assert (a + b)[0] == a[0] && (a + b)[1..] == a[1..] + b;
      CountNewlinesAppend(a[1..], b);
    }
  }

  lemma {:induction false} NoNewlines(s: string)
    requires '\n' !in s
    ensures CountNewlines(s) == 0
    decreases |s|
  {
    if s != [] {
      assert s[0] in s;
      assert forall c :: c in s[1..] ==> c in s;
      NoNewlines(s[1..]);
    }
  }

  /** An embed line is one line: it holds a single line break, its last character. */
  lemma EmbedLineIsOneLine(guid: string, image: string)
    requires '\n' !in guid && '\n' !in Paths.Basename(image)
    ensures CountNewlines(EmbedLine(guid, image)) == 1
    ensures EmbedLine(guid, image)[|EmbedLine(guid, image)| - 1] == '\n'
  {
    var name := Paths.Basename(image);
    NoNewlines("![");
    NoNewlines(guid);
    NoNewlines("](");
    NoNewlines(name);
    CountNewlinesAppend("![", guid);
    CountNewlinesAppend("![" + guid, "](");
    CountNewlinesAppend("![" + guid + "](", name);
    CountNewlinesAppend("![" + guid + "](" + name, ")\n");
    assert CountNewlines(")\n") == 1;
  }

  /** For images p1..pn the section has exactly n lines. */
  lemma {:induction false} EmbedLinesCount(guid: string, images: seq<string>)
    requires '\n' !in guid
    requires forall i :: 0 <= i < |images| ==> '\n' !in Paths.Basename(images[i])
    ensures CountNewlines(EmbedLines(guid, images)) == |images|
    decreases |images|
  {
    if images != [] {
      var last := images[|images| - 1];
      EmbedLinesCount(guid, images[..|images| - 1]);
      EmbedLineIsOneLine(guid, last);
      CountNewlinesAppend(EmbedLines(guid, images[..|images| - 1]), EmbedLine(guid, last));
    }
  }

  /** The section for a list is the sections of its parts, in order. */
  lemma {:induction false} EmbedLinesAppend(guid: string, a: seq<string>, b: seq<string>)
    ensures EmbedLines(guid, a + b) == EmbedLines(guid, a) + EmbedLines(guid, b)
    decreases |b|
  {
    if b == [] {
      assert a + b == a;
    } else {
      var b', last := b[..|b| - 1], b[|b| - 1];
      var ab := a + b;
      assert ab[..|ab| - 1] == a + b';
      assert ab[|ab| - 1] == last;
      assert EmbedLines(guid, ab) == EmbedLines(guid, a + b') + EmbedLine(guid, last);
      EmbedLinesAppend(guid, a, b');
      assert EmbedLines(guid, b) == EmbedLines(guid, b') + EmbedLine(guid, last);
    }
  }

  /** The section starts with the first image's line and goes on with the rest. */
  lemma EmbedLinesCons(guid: string, images: seq<string>)
    requires images != []
    ensures EmbedLines(guid, images) == EmbedLine(guid, images[0]) + EmbedLines(guid, images[1..])
  {
    EmbedLinesAppend(guid, [images[0]], images[1..]);
    assert [images[0]] + images[1..] == images;
    assert EmbedLines(guid, [images[0]]) == EmbedLines(guid, []) + EmbedLine(guid, images[0]);
  }

  /** The section is empty exactly when there are no images. */
  lemma EmbedLinesEmpty(guid: string, images: seq<string>)
    ensures EmbedLines(guid, images) == [] <==> images == []
  {
    if images != [] {
      assert |EmbedLine(guid, images[|images| - 1])| > 0;
    }
  }
}
