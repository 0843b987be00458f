/**
 * The Markdown output of run: one bullet line per item, in the order the
 * search returned them, written into a string builder.
 */
module MarkdownList {
  import opened GoStrings
  import opened Decimal
  import opened Search

  /** The bullet "* [#<number> - <title>](<url>)" and its newline. */
  function Line(item: Item): (l: GoString)
    ensures |l| == 11 + |FormatInt(item.number)| + |item.title| + |item.url|
  {
    "* [#" + FormatInt(item.number) + " - " + item.title + "](" + item.url + ")\n"
  }

  /** The pieces f(x) of the elements of xs, concatenated in order. */
  function Join<T>(xs: seq<T>, f: T -> GoString): GoString
    decreases |xs|
  {
    if xs == [] then [] else Join(xs[..|xs| - 1], f) + f(xs[|xs| - 1])
  }

  /** The whole Markdown output: the lines of all items, in input order. */
  function Markdown(items: seq<Item>): GoString {
    Join(items, Line)
  }

  /** The loop of run's Markdown branch. */
  method RenderMarkdown(items: seq<Item>) returns (out: GoString)
    ensures out == Markdown(items)
  {
    out := [];
    for i := 0 to |items|
      invariant out == Markdown(items[..i])
    {
      assert items[..i + 1][..i] == items[..i];
      out := out + Line(items[i]);
    }
    assert items[..|items|] == items;
  }

  lemma {:induction false} JoinAppend<T>(a: seq<T>, b: seq<T>, f: T -> GoString)
    ensures Join(a + b, f) == Join(a, f) + Join(b, f)
    decreases |b|
  {
    if b == [] {
      assert a + b == a;
    } else {
      var b', last := b[..|b| - 1], b[|b| - 1];
      assert (a + b)[..|a + b| - 1] == a + b';
      assert (a + b)[|a + b| - 1] == last;
      JoinAppend(a, b', f);
    }
  }

  lemma JoinSingle<T>(x: T, f: T -> GoString)
    ensures Join([x], f) == f(x)
  {
  }

  lemma JoinSplit<T>(xs: seq<T>, k: nat, f: T -> GoString)
    requires k < |xs|
    ensures Join(xs, f) == Join(xs[..k], f) + (f(xs[k]) + Join(xs[k + 1..], f))
  {
    var before, rest, after := xs[..k], xs[k..], xs[k + 1..];
    assert xs == before + rest;
    JoinAppend(before, rest, f);
    assert rest == [xs[k]] + after;
    JoinAppend([xs[k]], after, f);
    JoinSingle(xs[k], f);
  }

  /** Rendering a concatenation renders the parts one after the other. */
  lemma MarkdownAppend(a: seq<Item>, b: seq<Item>)
    ensures Markdown(a + b) == Markdown(a) + Markdown(b)
  {
    JoinAppend(a, b, Line);
  }

  /** Sum of the line lengths of the items. */
  function LineLengths(items: seq<Item>): nat
    decreases |items|
  {
    if items == [] then 0 else LineLengths(items[..|items| - 1]) + |Line(items[|items| - 1])|
  }

  /** The output is as long as its lines together. */
  lemma {:induction false} MarkdownLength(items: seq<Item>)
    ensures |Markdown(items)| == LineLengths(items)
    decreases |items|
  {
    if items != [] {
      MarkdownLength(items[..|items| - 1]);
    }
  }

  /** The line of item k follows the lines of the items before it. */
  lemma MarkdownLineAt(items: seq<Item>, k: nat)
    requires k < |items|
    ensures var off := |Markdown(items[..k])|;
      && off + |Line(items[k])| <= |Markdown(items)|
      && Markdown(items)[off..off + |Line(items[k])|] == Line(items[k])
  {
    JoinSplit(items, k, Line);
    SliceMiddle(Markdown(items[..k]), Line(items[k]), Markdown(items[k + 1..]));
  }

  lemma SliceMiddle(x: GoString, m: GoString, y: GoString)
    ensures (x + (m + y))[|x|..|x| + |m|] == m
  {
  }

  predicate NoNewline(s: GoString) {
    forall i | 0 <= i < |s| :: s[i] != '\n'
  }

  /** Every line holds exactly one newline, its last byte, when title and url hold none. */
  lemma LineNewlines(item: Item)
    requires NoNewline(item.title) && NoNewline(item.url)
    ensures Count(Line(item), '\n') == 1
    ensures Line(item)[|Line(item)| - 1] == '\n'
  {
    var d := FormatInt(item.number);
    CountAbsent(d, '\n');
    CountAbsent(item.title, '\n');
    CountAbsent(item.url, '\n');
    var a: GoString := "* [#";
    var b: GoString := " - ";
    var c: GoString := "](";
    var e: GoString := ")\n";
    CountAbsent(a, '\n');
    CountAbsent(b, '\n');
    CountAbsent(c, '\n');
    assert Count(e, '\n') == 1 by {
      assert e[1..][1..] == [];
    }
    CountAppend(a, d, '\n');
    CountAppend(a + d, b, '\n');
    CountAppend(a + d + b, item.title, '\n');
    CountAppend(a + d + b + item.title, c, '\n');
    CountAppend(a + d + b + item.title + c, item.url, '\n');
    CountAppend(a + d + b + item.title + c + item.url, e, '\n');
  }

  /**
   * With no newline inside titles and urls, the output has exactly one line
   * per item.
   */
  lemma {:induction false} MarkdownLineCount(items: seq<Item>)
    requires forall i | 0 <= i < |items| :: NoNewline(items[i].title) && NoNewline(items[i].url)
    ensures Count(Markdown(items), '\n') == |items|
    decreases |items|
  {
    if items != [] {
      var last := items[|items| - 1];
      MarkdownLineCount(items[..|items| - 1]);
      LineNewlines(last);
      CountAppend(Markdown(items[..|items| - 1]), Line(last), '\n');
    }
  }
}
