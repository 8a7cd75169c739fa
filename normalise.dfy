/** Response normalisation: keep the text blocks of the model's reply, join them
    with line breaks, trim, strip one leading and one trailing code fence (a narrow
    case of the fenced code blocks of section 4.5 of CommonMark), and trim again. */
module Normalise {
  import opened JsString

  /** One content block of the model's reply: a text block, or any other kind. */
  datatype Block = Text(text: string) | Other

  /** `content.filter(b => b.type === "text").map(b => b.text)`. */
  function TextsOf(blocks: seq<Block>): (r: seq<string>)
    ensures |r| <= |blocks|
    ensures r == [] <==> forall i :: 0 <= i < |blocks| ==> blocks[i].Other?
  {
    if blocks == [] then []
    else
      var rest := TextsOf(blocks[1..]);
      assert forall i :: 1 <= i < |blocks| ==> blocks[i] == blocks[1..][i - 1];
      match blocks[0]
      case Text(s) => [s] + rest
      case Other => rest
  }

  /** The text blocks of a concatenation are those of each part, in order. */
  lemma {:induction false} TextsOfAppend(a: seq<Block>, b: seq<Block>)
    ensures TextsOf(a + b) == TextsOf(a) + TextsOf(b)
    decreases |a|
  {
    if a != [] {
      var ab := a + b;
      assert ab[0] == a[0] && ab[1..] == a[1..] + b;
      TextsOfAppend(a[1..], b);
      match a[0]
      case Text(s) =>
        assert TextsOf(ab) == [s] + TextsOf(ab[1..]);
        assert TextsOf(a) == [s] + TextsOf(a[1..]);
      case Other =>
        assert TextsOf(ab) == TextsOf(ab[1..]);
    } else {
      assert a + b == b;
    }
  }

  /** The openings `/^```(?:jsx|tsx|vue|html)?\n/` matches: three backticks, one of
      four language tags or none, and a line break. */
  const OpeningFences: seq<string> :=
    ["```jsx\n", "```tsx\n", "```vue\n", "```html\n", "```\n"]

  /** The closing `/\n```$/` matches. */
  const ClosingFence: string := "\n```"

  predicate EndsWith(s: string, suffix: string) {
    |suffix| <= |s| && s[|s| - |suffix|..] == suffix
  }

  predicate StartsWithFenceOf(fences: seq<string>, s: string) {
    exists i :: 0 <= i < |fences| && fences[i] <= s
  }

  /** Removes the first of `fences` that starts `s`, if any does. */
  function StripFirstOf(fences: seq<string>, s: string): (r: string)
    ensures StartsWithFenceOf(fences, s) ==>
              exists i :: 0 <= i < |fences| && fences[i] <= s && s == fences[i] + r
    ensures !StartsWithFenceOf(fences, s) ==> r == s
  {
    if fences == [] then s
    else if fences[0] <= s then
      assert s == fences[0] + s[|fences[0]|..];
      s[|fences[0]|..]
    else
      var r := StripFirstOf(fences[1..], s);
      assert forall i :: 1 <= i < |fences| ==> fences[i] == fences[1..][i - 1];
      r
  }

  /** `replace(/^```(?:jsx|tsx|vue|html)?\n/, "")`. */
  function StripOpeningFence(s: string): (r: string)
    ensures StartsWithFenceOf(OpeningFences, s) ==>
              exists i :: 0 <= i < |OpeningFences| && s == OpeningFences[i] + r
    ensures !StartsWithFenceOf(OpeningFences, s) ==> r == s
  {
    StripFirstOf(OpeningFences, s)
  }

  /** `replace(/\n```$/, "")`. */
  function StripClosingFence(s: string): (r: string)
    ensures EndsWith(s, ClosingFence) ==> s == r + ClosingFence
    ensures !EndsWith(s, ClosingFence) ==> r == s
  {
    if EndsWith(s, ClosingFence) then s[..|s| - |ClosingFence|] else s
  }

  /** No opening fence is a prefix of a different one, so at most one of them can
      start a string and the order in which the alternatives are tried is immaterial. */
  lemma OpeningFenceUnique(s: string, i: nat, j: nat)
    requires i < |OpeningFences| && j < |OpeningFences|
    requires OpeningFences[i] <= s && OpeningFences[j] <= s
    ensures i == j
  {
    var a, b := OpeningFences[i], OpeningFences[j];
    // Two prefixes of one string agree on their common length; the fences differ at index 3 or 4.
    assert a[3] == s[3] == b[3];
    if a[3] != '\n' {
      assert a[4] == s[4] == b[4];
      if a[4] == 's' {
        assert a[3] == s[3] == b[3];
      }
    }
  }

  lemma StripOpeningFenceIsInfix(s: string)
    ensures IsInfix(StripOpeningFence(s), s)
  {
    var r := StripOpeningFence(s);
    assert s[|s| - |r|..|s|] == r;
  }

  lemma StripClosingFenceIsInfix(s: string)
    ensures IsInfix(StripClosingFence(s), s)
  {
    var r := StripClosingFence(s);
    assert s[0..|r|] == r;
  }

  /** `cleanCode` from the joined text: trim, strip the two fences, trim again.
      The result never starts or ends with whitespace. */
  function CleanCode(joined: string): (r: string)
    ensures IsTrimmed(r)
  {
    Trim(StripClosingFence(StripOpeningFence(Trim(joined))))
  }

  /** Cleaning only cuts characters off the two ends: the code is a contiguous piece
      of the joined text, so prose around a fence and fences in mid-text survive. */
  lemma CleanCodeIsInfix(joined: string)
    ensures IsInfix(CleanCode(joined), joined)
  {
    var t := Trim(joined);
    var o := StripOpeningFence(t);
    var c := StripClosingFence(o);
    TrimIsInfix(joined);
    StripOpeningFenceIsInfix(t);
    StripClosingFenceIsInfix(o);
    TrimIsInfix(c);
    InfixTransitive(o, t, joined);
    InfixTransitive(c, o, joined);
    InfixTransitive(Trim(c), c, joined);
  }

  /** The `code` the route returns for a reply made of `blocks`. */
  function NormaliseReply(blocks: seq<Block>): (r: string)
    ensures IsTrimmed(r)
    ensures IsInfix(r, JoinLines(TextsOf(blocks)))
  {
    CleanCodeIsInfix(JoinLines(TextsOf(blocks)));
    CleanCode(JoinLines(TextsOf(blocks)))
  }

  /** With no fence at either end of the trimmed text, the code is just the trimmed text. */
  lemma CleanCodeUnfenced(joined: string)
    requires !StartsWithFenceOf(OpeningFences, Trim(joined))
    requires !EndsWith(Trim(joined), ClosingFence)
    ensures CleanCode(joined) == Trim(joined)
  {
    TrimIdempotent(joined);
  }

  /** An opening fence followed by anything loses exactly that fence. */
  lemma StripOpeningFenceOf(i: nat, rest: string)
    requires i < |OpeningFences|
    ensures StripOpeningFence(OpeningFences[i] + rest) == rest
  {
    var s := OpeningFences[i] + rest;
    assert OpeningFences[i] <= s;
    var o := StripOpeningFence(s);
    var j :| 0 <= j < |OpeningFences| && s == OpeningFences[j] + o;
    assert OpeningFences[j] <= s;
    OpeningFenceUnique(s, i, j);
    assert o == s[|OpeningFences[i]|..] == rest;
  }

  /** Anything followed by the closing fence loses exactly that fence. */
  lemma StripClosingFenceOf(rest: string)
    ensures StripClosingFence(rest + ClosingFence) == rest
  {
    var s := rest + ClosingFence;
    assert s[|s| - |ClosingFence|..] == ClosingFence;
  }

  /** A fenced string starts and ends with a backtick, so it has no outer whitespace. */
  lemma FencedIsTrimmed(i: nat, rest: string)
    requires i < |OpeningFences|
    requires rest != [] && rest[|rest| - 1] == '`'
    ensures Trim(OpeningFences[i] + rest) == OpeningFences[i] + rest
  {
    var s := OpeningFences[i] + rest;
    assert OpeningFences[i][0] == '`';
    assert s[0] == OpeningFences[i][0];
    assert s[|s| - 1] == rest[|rest| - 1];
    TrimIdentity(s);
  }

  /** Round trip: code without outer whitespace, wrapped in any accepted opening
      fence and the closing fence, comes back out exactly. */
  lemma CleanCodeFenced(i: nat, code: string)
    requires i < |OpeningFences|
    requires IsTrimmed(code)
    ensures CleanCode(OpeningFences[i] + (code + ClosingFence)) == code
  {
    var rest := code + ClosingFence;
    assert rest[|rest| - 1] == ClosingFence[3];
    FencedIsTrimmed(i, rest);
    StripOpeningFenceOf(i, rest);
    StripClosingFenceOf(code);
    TrimIdentity(code);
  }

  /** No accepted opening fence starts with "```ts" followed by a line break. */
  lemma OtherTagIsNoFence(rest: string)
    ensures !StartsWithFenceOf(OpeningFences, "```ts\n" + rest)
  {
    var s := "```ts\n" + rest;
    assert s[3] == 't' && s[5] == '\n';
    forall i | 0 <= i < |OpeningFences| ensures !(OpeningFences[i] <= s) {
      var f := OpeningFences[i];
      assert f[3] != 't' || f[5] != '\n';
    }
  }

  /** A string that starts with a backtick and ends in something other than
      whitespace is left alone by `trim`. */
  lemma BacktickStartTrimmed(s: string)
    requires s != [] && s[0] == '`' && !IsWhitespace(s[|s| - 1])
    ensures Trim(s) == s
  {
    TrimIdentity(s);
  }

  /** A language tag outside `jsx`, `tsx`, `vue` and `html`, such as `ts`, is left in
      place; only the closing fence goes. */
  lemma CleanCodeKeepsOtherTag(code: string)
    requires code != [] && IsTrimmed(code)
    ensures CleanCode("```ts\n" + (code + ClosingFence)) == "```ts\n" + code
  {
    var head := "```ts\n";
    var kept := head + code;
    var s := head + (code + ClosingFence);
    assert s == kept + ClosingFence;
    assert kept[0] == '`' && kept[|kept| - 1] == code[|code| - 1];
    assert s[0] == '`' && s[|s| - 1] == '`';
    BacktickStartTrimmed(s);
    OtherTagIsNoFence(code + ClosingFence);
    StripClosingFenceOf(kept);
    BacktickStartTrimmed(kept);
  }

  /** A reply wrapped in two fences, and the same reply wrapped in one. */
  const DoublyFenced: string := "```jsx\n```jsx\nx\n```\n```"
  const SinglyFenced: string := "```jsx\nx\n```"

  /** One pass strips the outer fence pair only. */
  lemma CleanCodeDoublyFenced()
    ensures CleanCode(DoublyFenced) == SinglyFenced
  {
    assert IsTrimmed(SinglyFenced) by {
      assert SinglyFenced[0] == '`' && SinglyFenced[|SinglyFenced| - 1] == '`';
    }
    assert DoublyFenced == OpeningFences[0] + (SinglyFenced + ClosingFence);
    CleanCodeFenced(0, SinglyFenced);
  }

  /** A second pass strips the inner pair. */
  lemma CleanCodeSinglyFenced()
    ensures CleanCode(SinglyFenced) == "x"
  {
    assert SinglyFenced == OpeningFences[0] + ("x" + ClosingFence);
    CleanCodeFenced(0, "x");
  }

  /** Cleaning is not idempotent: only one fence is stripped at each end, so a
      doubly fenced reply still holds a fence after one pass and loses it on a second. */
  lemma CleanCodeNotIdempotent()
    ensures CleanCode(CleanCode(DoublyFenced)) != CleanCode(DoublyFenced)
  {
    CleanCodeDoublyFenced();
    CleanCodeSinglyFenced();
    assert |SinglyFenced| != 1;
  }

  /** A reply whose blocks are all non-text yields empty code. */
  lemma NormaliseReplyNoText(blocks: seq<Block>)
    requires forall i :: 0 <= i < |blocks| ==> blocks[i].Other?
    ensures NormaliseReply(blocks) == ""
  {
    assert TextsOf(blocks) == [];
    assert Trim("") == "";
  }

  /** Non-text blocks anywhere in the reply have no effect on the code. */
  lemma NormaliseReplyIgnoresOther(a: seq<Block>, b: seq<Block>)
    ensures NormaliseReply(a + [Other] + b) == NormaliseReply(a + b)
  {
    TextsOfIgnoresOther(a, b);
  }

  lemma TextsOfIgnoresOther(a: seq<Block>, b: seq<Block>)
    ensures TextsOf(a + [Other] + b) == TextsOf(a + b)
  {
    TextsOfAppend(a, [Other]);
    TextsOfAppend(a + [Other], b);
    TextsOfAppend(a, b);
    assert TextsOf([Other]) == [];
  }

  /** Text blocks are joined in order with one line break between neighbours. */
  lemma NormaliseReplyJoins(x: string, y: string)
    ensures NormaliseReply([Text(x), Other, Text(y)]) == CleanCode(x + "\n" + y)
  {
    assert [Text(x), Other, Text(y)] == [Text(x)] + [Other] + [Text(y)];
    TextsOfIgnoresOther([Text(x)], [Text(y)]);
    assert [Text(x)] + [Text(y)] == [Text(x), Text(y)];
    assert TextsOf([Text(x), Text(y)]) == [x, y] by {
      assert [Text(x), Text(y)][1..] == [Text(y)];
    }
    assert JoinLines([x, y]) == x + "\n" + y by {
      assert [x, y][1..] == [y];
    }
  }

  /** A sample component, and a reply that carries it in a `jsx` fence. */
  const ExampleCode: string := "export default function X(){}"
  const ExampleReply: string := "```jsx\n" + ExampleCode + "\n```"

  lemma ExampleReplyIsFenced()
    ensures ExampleReply == OpeningFences[0] + (ExampleCode + ClosingFence)
    ensures IsTrimmed(ExampleCode)
  {
    assert ExampleCode[0] == 'e' && ExampleCode[|ExampleCode| - 1] == '}';
  }

  /** The sample reply normalises to the bare component. */
  lemma NormaliseReplyExample()
    ensures NormaliseReply([Text(ExampleReply)]) == ExampleCode
  {
    ExampleReplyIsFenced();
    CleanCodeFenced(0, ExampleCode);
    assert TextsOf([Text(ExampleReply)]) == [ExampleReply];
  }
}
