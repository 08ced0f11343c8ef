/**
 * The Telegram message that `notify_new_post` builds for a post: a fixed
 * Markdown frame around the post's rendered title and its link.
 */
module Message {
  import opened Optional
  import opened Posts

  /** The text before the title: a bell, the bold heading, and the opening `*` of the bold title. */
  const Head: string := "\U{1F514} *New Post Published!*\n\n*"
  /** The text between the title and the link. */
  const Middle: string := "*\n\n\U{1F517} [Read more]("
  /** The text after the link. */
  const Tail: string := ")"

  /** `title.rendered`, or "New post" when the post has no rendered title. */
  function Title(p: Post): string {
    p.rendered.GetOr("New post")
  }

  /** `link`, or the empty string when the post has none. */
  function Link(p: Post): string {
    p.link.GetOr("")
  }

  /** The message text sent for `p`. */
  function Text(p: Post): string {
    Head + Title(p) + Middle + Link(p) + Tail
  }

  /** The index of the first `*` in `s`, or `|s|` when there is none. */
  function FirstStar(s: string): (n: nat)
    ensures n <= |s|
    ensures forall i | 0 <= i < n :: s[i] != '*'
    ensures n < |s| ==> s[n] == '*'
  {
    if s == [] || s[0] == '*' then 0 else 1 + FirstStar(s[1..])
  }

  /** Reads the title and the link back out of a message text: the title runs up
      to the first `*` after the heading, the link from the end of `Middle` to the
      closing parenthesis. */
  function Parse(m: string): Option<(string, string)> {
    if |m| < |Head| + |Middle| + |Tail| || m[..|Head|] != Head || m[|m| - |Tail|..] != Tail then None
    else
      var body := m[|Head|..|m| - |Tail|];
      var t := FirstStar(body);
      if t + |Middle| <= |body| && body[t..t + |Middle|] == Middle
      then Some((body[..t], body[t + |Middle|..]))
      else None
  }

  /** The message carries the title and the link verbatim: both can be read back,
      provided the title itself contains no `*` (which would end the bold span early). */
  lemma ParseText(p: Post)
    requires '*' !in Title(p)
    ensures Parse(Text(p)) == Some((Title(p), Link(p)))
  {
    var m := Text(p);
    var title, link := Title(p), Link(p);
    assert m == Head + (title + Middle + link) + Tail;
    assert m[..|Head|] == Head;
    assert m[|m| - |Tail|..] == Tail;
    var body := m[|Head|..|m| - |Tail|];
    assert body == title + Middle + link;
    var t := FirstStar(body);
    forall i | 0 <= i < |title| ensures body[i] != '*' {
      assert body[i] == title[i];
    }
    assert body[|title|] == Middle[0] == '*';
    assert t == |title|;
    assert body[t..t + |Middle|] == Middle;
    assert body[..t] == title;
    assert body[t + |Middle|..] == link;
  }

  /** Two posts whose titles contain no `*` get the same message only when they
      have the same title and the same link. */
  lemma TextInjective(a: Post, b: Post)
    requires '*' !in Title(a) && '*' !in Title(b)
    requires Text(a) == Text(b)
    ensures Title(a) == Title(b) && Link(a) == Link(b)
  {
    ParseText(a);
    ParseText(b);
  }
}
