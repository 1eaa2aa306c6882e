/** The context assembly of `searchGPT` (index.js): the page text of the
    first search result, followed by the snippets of all the other results
    with Google's "..." elision markers cleaned out, then with every line
    feed turned into a space, trimmed and cut to the character budget. The html-to-text converter
    and the page fetch are parameters: nothing is assumed about them. */
module Context {
  import opened JsString

  /** One item of a Google Custom Search response. */
  datatype SearchItem = SearchItem(link: string, snippet: string, title: string)

  /** The character budget for the context: roughly 2,500 of the chat
      model's 4,096 tokens at about four characters a token, leaving the
      rest for the instruction and the answer. */
  const MaxContextLength: nat := 10000

  /** The elision marker removed from the snippets, and its replacement. */
  const Ellipsis: string := "..."
  const EllipsisReplacement: string := " "

  /** The `reduce` over the remaining results: a left fold that appends a
      space and then the item's snippet to the text so far. */
  function FoldSnippets(acc: string, pages: seq<SearchItem>): (r: string)
    ensures acc <= r && |r| == |acc| + |pages| + SnippetChars(pages)
    decreases |pages|
  {
    if pages == [] then acc else FoldSnippets(acc + " " + pages[0].snippet, pages[1..])
  }

  /** Reference definition of the snippet block: `" " + snippet` for each
      page, concatenated in the order of the pages. */
  function Spaced(pages: seq<SearchItem>): string
  {
    if pages == [] then "" else " " + pages[0].snippet + Spaced(pages[1..])
  }

  /** The fold only appends: it leaves its start text in front of the
      reference block. */
  lemma {:induction false} FoldIsSpaced(acc: string, pages: seq<SearchItem>)
    ensures FoldSnippets(acc, pages) == acc + Spaced(pages)
    decreases |pages|
  {
    if pages != [] {
      FoldIsSpaced(acc + " " + pages[0].snippet, pages[1..]);
    }
  }

  /** The block keeps rank order: the block of a concatenation of result
      lists is the concatenation of their blocks. */
  lemma {:induction false} SpacedAppend(a: seq<SearchItem>, b: seq<SearchItem>)
    ensures Spaced(a + b) == Spaced(a) + Spaced(b)
    decreases |a|
  {
    if a != [] {
      assert (a + b)[0] == a[0] && (a + b)[1..] == a[1..] + b;
      SpacedAppend(a[1..], b);
      calc {
        Spaced(a + b);
        " " + a[0].snippet + Spaced(a[1..] + b);
        " " + a[0].snippet + (Spaced(a[1..]) + Spaced(b));
        Spaced(a) + Spaced(b);
      }
    } else {
      assert a + b == b;
    }
  }

  /** Each page adds exactly its snippet and one space. */
  lemma {:induction false} SpacedLength(pages: seq<SearchItem>)
    ensures |Spaced(pages)| == |pages| + SnippetChars(pages)
    decreases |pages|
  {
    if pages != [] {
      SpacedLength(pages[1..]);
    }
  }

  /** The total number of characters in the snippets of `pages`. */
  function SnippetChars(pages: seq<SearchItem>): nat
  {
    if pages == [] then 0 else |pages[0].snippet| + SnippetChars(pages[1..])
  }

  /** The snippet block of a response: the fold over every item but the
      first (the first one is the page that is read). */
  function SnippetBlock(items: seq<SearchItem>): (block: string)
    requires |items| >= 1
    ensures block == Spaced(items[1..])
  {
    FoldIsSpaced("", items[1..]);
    FoldSnippets("", items[1..])
  }

  /** The snippet block is the reference block of `items[1..]`, so it is
      empty for a single result and never contains the first item's
      snippet: replacing the first item leaves it unchanged. */
  lemma SnippetBlockSpec(items: seq<SearchItem>, first: SearchItem)
    requires |items| >= 1
    ensures SnippetBlock(items) == Spaced(items[1..])
    ensures |items| == 1 ==> SnippetBlock(items) == ""
    ensures SnippetBlock([first] + items[1..]) == SnippetBlock(items)
  {
    FoldIsSpaced("", items[1..]);
    assert ([first] + items[1..])[1..] == items[1..];
  }

  /** One more result at the end of the response adds one space and its
      snippet at the end of the block; the earlier block is unchanged. */
  lemma SnippetBlockExtend(items: seq<SearchItem>, last: SearchItem)
    requires |items| >= 1
    ensures SnippetBlock(items + [last]) == SnippetBlock(items) + " " + last.snippet
  {
    assert (items + [last])[1..] == items[1..] + [last];
    SpacedAppend(items[1..], [last]);
    assert Spaced([last]) == " " + last.snippet + Spaced([]);
  }

  /** `.replaceAll("...", " ")` on the snippet block: never longer than
      the block. */
  function CleanSnippets(block: string): (r: string)
    ensures |r| <= |block|
  {
    ReplaceAllLength(block, Ellipsis, EllipsisReplacement);
    ReplaceAll(block, Ellipsis, EllipsisReplacement)
  }

  /** A cleaned block that starts with a dot comes from a block that starts
      with a dot. */
  lemma CleanFirstDot(s: string)
    requires |CleanSnippets(s)| > 0 && CleanSnippets(s)[0] == '.'
    ensures |s| > 0 && s[0] == '.'
  {
  }

  /** A cleaned block that starts with two dots comes from a block that
      starts with exactly two dots. */
  lemma CleanTwoDots(s: string)
    requires |CleanSnippets(s)| >= 2 && CleanSnippets(s)[0] == '.' && CleanSnippets(s)[1] == '.'
    ensures |s| >= 2 && s[0] == '.' && s[1] == '.' && (|s| == 2 || s[2] != '.')
  {
    if |s| >= 3 {
      assert s[..3] != Ellipsis;
      assert CleanSnippets(s) == [s[0]] + CleanSnippets(s[1..]);
      CleanFirstDot(s[1..]);
    }
  }

  /** After the cleaning no three consecutive dots are left: a run of `k`
      dots becomes `k / 3` spaces followed by `k % 3` dots. */
  lemma {:induction false} CleanedHasNoEllipsis(s: string)
    ensures !Occurs(CleanSnippets(s), Ellipsis)
    decreases |s|
  {
    var r := CleanSnippets(s);
    if |s| < 3 {
      assert r == s;
    } else if s[..3] == Ellipsis {
      CleanedHasNoEllipsis(s[3..]);
      assert r == [' '] + CleanSnippets(s[3..]);
      forall i | 0 <= i <= |r| - 3 ensures !MatchAt(r, Ellipsis, i) {
        if i == 0 {
          assert r[i..i + 3][0] == ' ';
        } else if MatchAt(r, Ellipsis, i) {
          MatchInTail(' ', CleanSnippets(s[3..]), Ellipsis, i);
        }
      }
    } else {
      var t := CleanSnippets(s[1..]);
      CleanedHasNoEllipsis(s[1..]);
      assert r == [s[0]] + t;
      assert s[..3] == [s[0], s[1], s[2]];
      forall i | 0 <= i <= |r| - 3 ensures !MatchAt(r, Ellipsis, i) {
        if i == 0 {
          if MatchAt(r, Ellipsis, 0) {
            assert r[..3] == Ellipsis;
            assert r[0] == '.' && t[0] == r[1] == '.' && t[1] == r[2] == '.';
            CleanTwoDots(s[1..]);
          }
        } else if MatchAt(r, Ellipsis, i) {
          MatchInTail(s[0], t, Ellipsis, i);
        }
      }
    }
  }

  /** The cleaning never makes the block longer, and cleaning twice is
      cleaning once. */
  lemma CleanSnippetsSpec(s: string)
    ensures |CleanSnippets(s)| <= |s|
    ensures CleanSnippets(CleanSnippets(s)) == CleanSnippets(s)
  {
    ReplaceAllLength(s, Ellipsis, EllipsisReplacement);
    CleanedHasNoEllipsis(s);
    ReplaceAllAbsent(CleanSnippets(s), Ellipsis, EllipsisReplacement);
  }

  /** The context before the budget step: the converted HTML of the first
      page, then the cleaned snippet block, which adds at most one space and
      the snippet for each further result. */
  function RawContext(items: seq<SearchItem>, fetch: string -> string, convert: string -> string): (r: string)
    requires |items| >= 1
    ensures convert(fetch(items[0].link)) <= r
    ensures |r| <= |convert(fetch(items[0].link))| + |items| - 1 + SnippetChars(items[1..])
  {
    convert(fetch(items[0].link)) + CleanSnippets(SnippetBlock(items))
  }

  /** The raw context is the first page's converted text followed by the
      reference snippet block of the remaining items, cleaned. */
  lemma RawContextSpec(items: seq<SearchItem>, fetch: string -> string, convert: string -> string)
    requires |items| >= 1
    ensures RawContext(items, fetch, convert)
            == convert(fetch(items[0].link)) + ReplaceAll(Spaced(items[1..]), "...", " ")
    ensures !Occurs(RawContext(items, fetch, convert)[|convert(fetch(items[0].link))|..], "...")
  {
    FoldIsSpaced("", items[1..]);
    assert SnippetBlock(items) == Spaced(items[1..]);
    CleanedHasNoEllipsis(SnippetBlock(items));
    var page := convert(fetch(items[0].link));
    assert RawContext(items, fetch, convert)[|page|..] == CleanSnippets(SnippetBlock(items));
  }

  /** `.replaceAll("\n", " ")`: every line feed becomes a space. */
  function Flatten(s: string): (r: string)
    ensures |r| == |s|
    ensures forall i :: 0 <= i < |s| ==> r[i] == (if s[i] == '\n' then ' ' else s[i])
    ensures '\n' !in r
  {
    ReplaceCharAt(s, '\n', ' ');
    ReplaceAll(s, "\n", " ")
  }

  /** `.substring(0, 10000)`. */
  function Truncate(s: string): (r: string)
    ensures |r| <= MaxContextLength
    ensures r <= s
    ensures |s| <= MaxContextLength <==> r == s
    ensures |s| > MaxContextLength ==> |r| == MaxContextLength
  {
    SubstringPrefix(s, MaxContextLength);
    Substring(s, 0, MaxContextLength)
  }

  /** The budget step: flatten, trim, then cut. The result is a prefix of
      the trimmed text with its line feeds turned into spaces, at most the budget long, without line
      feeds and not starting with whitespace; when the trimmed text fits,
      it is that text, which does not end with whitespace either. */
  function Finalize(raw: string): (r: string)
    ensures |r| <= MaxContextLength
    ensures '\n' !in r
    ensures r <= Trim(Flatten(raw))
    ensures r == [] || !IsWhitespace(r[0])
    ensures |Trim(Flatten(raw))| <= MaxContextLength ==>
              r == Trim(Flatten(raw)) && (r == [] || !IsWhitespace(r[|r| - 1]))
    ensures |Trim(Flatten(raw))| > MaxContextLength ==> |r| == MaxContextLength
  {
    var t := Trim(Flatten(raw));
    TrimAbsent(Flatten(raw), '\n');
    Truncate(t)
  }

  /** Cutting the result again at the budget changes nothing; the whole
      budget step is idempotent when no cut was needed. */
  lemma FinalizeIdempotent(raw: string)
    ensures Truncate(Finalize(raw)) == Finalize(raw)
    ensures |Trim(Flatten(raw))| <= MaxContextLength ==> Finalize(Finalize(raw)) == Finalize(raw)
  {
    var r := Finalize(raw);
    if |Trim(Flatten(raw))| <= MaxContextLength {
      assert Flatten(r) == r by {
        forall i | 0 <= i < |r| ensures Flatten(r)[i] == r[i] {
          assert r[i] != '\n';
        }
      }
      TrimTrimmed(r);
    }
  }

  /** The context of one request: within the budget, free of line feeds,
      a prefix of the trimmed raw context, and equal to it when it fits. */
  function AssembleContext(items: seq<SearchItem>, fetch: string -> string, convert: string -> string): (r: string)
    requires |items| >= 1
    ensures |r| <= MaxContextLength && '\n' !in r
    ensures r <= Trim(Flatten(RawContext(items, fetch, convert)))
    ensures |Trim(Flatten(RawContext(items, fetch, convert)))| <= MaxContextLength ==>
              r == Trim(Flatten(RawContext(items, fetch, convert)))
  {
    Finalize(RawContext(items, fetch, convert))
  }
}
