/**
 * `remove_mentions` (helpers/utility.py, and its copies in
 * helpers/simulation.py and cogs/markov.py): every space-separated token that
 * starts with `<@` is a user tag; each distinct tag is resolved through the
 * digits it contains and replaced, everywhere in the message, by `@` and the
 * member's display name, or by `@UNKNOWN_USER`.
 *
 * The guild's member lookup is a map from user id to display name. Python
 * iterates the set of tags in an order of its own; that order is a parameter.
 */
module Mentions {
  import opened Text

  const UNKNOWN_USER := "@UNKNOWN_USER"

  /** `c[0:2] == '<@'` */
  predicate IsTag(c: string) {
    |c| >= 2 && c[..2] == "<@"
  }

  /** `set([c for c in msg.split(' ') if c[0:2] == '<@'])` */
  function Tags(msg: string): (r: set<string>)
    ensures forall c :: c in r <==> c in Split(msg, ' ') && IsTag(c)
  {
    set c | c in Split(msg, ' ') && IsTag(c)
  }

  /** The user id of a tag, `int(re.sub('\D', '', tag))`; `None` is the ValueError of a tag without digits. */
  function TagId(tag: string): (r: Option<nat>)
    ensures r.None? <==> forall j :: 0 <= j < |tag| ==> !IsDigit(tag[j])
  {
    DigitsOnlyEmpty(tag);
    ParseNat(DigitsOnly(tag))
  }

  lemma {:induction false} DigitsOnlyEmpty(s: string)
    ensures |DigitsOnly(s)| == 0 <==> forall j :: 0 <= j < |s| ==> !IsDigit(s[j])
  {
    if |s| > 0 {
      DigitsOnlyEmpty(s[1..]);
      assert forall j :: 1 <= j < |s| ==> s[1..][j - 1] == s[j];
    }
  }

  /** One turn of the loop: the tag's replacement, or `None` for the ValueError. */
  function RewriteTag(msg: string, tag: string, members: map<nat, string>): Option<string>
    requires IsTag(tag)
  {
    match TagId(tag)
    case None => None
    case Some(id) =>
      if id in members then Some(Replace(msg, tag, "@" + members[id]))
      else if Contains(msg, tag) then Some(Replace(msg, tag, UNKNOWN_USER))
      else Some(msg)
  }

  /** The loop over the tags in the order given; the first ValueError ends it. */
  function RewriteAll(msg: string, order: seq<string>, members: map<nat, string>): Option<string>
    requires forall k :: 0 <= k < |order| ==> IsTag(order[k])
    decreases |order|
  {
    if |order| == 0 then Some(msg)
    else
      match RewriteTag(msg, order[0], members)
      case None => None
      case Some(next) => RewriteAll(next, order[1..], members)
  }

  function Elements(order: seq<string>): (r: set<string>)
    ensures forall t :: t in r <==> t in order
  {
    set t | t in order
  }

  /** `order` lists each tag of `msg` exactly once: an iteration order of the set. */
  predicate IsOrderOf(order: seq<string>, msg: string) {
    Elements(order) == Tags(msg) &&
    forall i, j :: 0 <= i < j < |order| ==> order[i] != order[j]
  }

  /** `remove_mentions` */
  method RemoveMentions(msg: string, members: map<nat, string>, order: seq<string>) returns (r: Option<string>)
    requires IsOrderOf(order, msg)
    ensures r == RewriteAll(msg, order, members)
  {
    var out := msg;
    var i := 0;
    while i < |order|
      invariant 0 <= i <= |order|
      invariant RewriteAll(out, order[i..], members) == RewriteAll(msg, order, members)
    {
      var tag := order[i];
      assert order[i..][1..] == order[i + 1..];
      var id := TagId(tag);
      if id.None? {
        return None;
      }
      if id.value in members {
        out := Replace(out, tag, "@" + members[id.value]);
      } else if Contains(out, tag) {
        out := Replace(out, tag, UNKNOWN_USER);
      }
      i := i + 1;
    }
    r := Some(out);
  }

  /** A message with no token starting with `<@` comes back unchanged. */
  lemma NoTagsUnchanged(msg: string, members: map<nat, string>, order: seq<string>)
    requires Tags(msg) == {}
    ensures IsOrderOf(order, msg) ==> RewriteAll(msg, order, members) == Some(msg)
  {
    if |order| > 0 {
      assert order[0] in Elements(order);
    }
  }

  /** The rewrite fails exactly when one of the tags has no digit at all. */
  lemma {:induction false} FailsIffDigitless(msg: string, order: seq<string>, members: map<nat, string>)
    requires forall k :: 0 <= k < |order| ==> IsTag(order[k])
    ensures RewriteAll(msg, order, members).None? <==> exists k :: 0 <= k < |order| && TagId(order[k]).None?
    decreases |order|
  {
    if |order| > 0 {
      match RewriteTag(msg, order[0], members)
      case None =>
      case Some(next) =>
        FailsIffDigitless(next, order[1..], members);
        assert forall k :: 1 <= k < |order| ==> order[1..][k - 1] == order[k];
    }
  }

  /**
   * The `elif user_tag in msg` test only skips a replacement that would change nothing: an
   * unresolved tag is always, in effect, replaced by `@UNKNOWN_USER`.
   */
  lemma UnknownGuardRedundant(msg: string, tag: string, members: map<nat, string>)
    requires IsTag(tag) && TagId(tag).Some? && TagId(tag).value !in members
    ensures RewriteTag(msg, tag, members) == Some(Replace(msg, tag, UNKNOWN_USER))
  {
    if !Contains(msg, tag) {
      ReplaceAbsent(msg, tag, UNKNOWN_USER);
    }
  }

  /** A message whose only tag is `tag` is iterated in exactly one order: `[tag]`. */
  lemma SingleTagOrder(msg: string, tag: string, order: seq<string>)
    requires IsOrderOf(order, msg) && Tags(msg) == {tag}
    ensures order == [tag] && IsTag(tag)
  {
    DistinctElements(order);
    assert |Elements(order)| == |{tag}| == 1;
    assert order[0] in Elements(order);
  }

  /** A list without repeats has as many elements as entries. */
  lemma {:induction false} DistinctElements(order: seq<string>)
    requires forall i, j :: 0 <= i < j < |order| ==> order[i] != order[j]
    ensures |Elements(order)| == |order|
  {
    if |order| > 0 {
      var rest := order[1..];
      DistinctElements(rest);
      assert Elements(order) == Elements(rest) + {order[0]};
      assert forall k :: 0 <= k < |rest| ==> rest[k] == order[k + 1] && order[k + 1] != order[0];
    }
  }

  /**
   * In any message whose one tag resolves to a member, every occurrence of the tag, left to
   * right, becomes `@` and the member's display name.
   */
  lemma KnownMention(msg: string, tag: string, members: map<nat, string>, order: seq<string>)
    requires IsOrderOf(order, msg) && Tags(msg) == {tag}
    requires TagId(tag).Some? && TagId(tag).value in members
    ensures RewriteAll(msg, order, members) == Some(Replace(msg, tag, "@" + members[TagId(tag).value]))
  {
    SingleTagOrder(msg, tag, order);
    RewriteSingle(msg, tag, members, Some(Replace(msg, tag, "@" + members[TagId(tag).value])));
  }

  /** In any message whose one tag resolves to no member, every occurrence becomes `@UNKNOWN_USER`. */
  lemma UnknownMention(msg: string, tag: string, members: map<nat, string>, order: seq<string>)
    requires IsOrderOf(order, msg) && Tags(msg) == {tag}
    requires TagId(tag).Some? && TagId(tag).value !in members
    ensures RewriteAll(msg, order, members) == Some(Replace(msg, tag, UNKNOWN_USER))
  {
    SingleTagOrder(msg, tag, order);
    UnknownGuardRedundant(msg, tag, members);
    RewriteSingle(msg, tag, members, Some(Replace(msg, tag, UNKNOWN_USER)));
  }

  /** Rewriting with one tag is that tag's rewrite. */
  lemma RewriteSingle(msg: string, tag: string, members: map<nat, string>, r: Option<string>)
    requires IsTag(tag) && RewriteTag(msg, tag, members) == r
    ensures RewriteAll(msg, [tag], members) == r
  {
    assert [tag][1..] == [];
  }

  /**
   * `str.replace` makes one left-to-right pass, so a display name can complete a partial tag
   * next to it: in `<@12> <<@12>2>` the tag `<@12>` of a member shown as `1` becomes `@1`, and
   * the result `@1 <@12>` still holds the tag.
   */
  lemma TagCanSurvive(members: map<nat, string>)
    requires 12 in members && members[12] == "1"
    ensures RewriteTag("<@12> <<@12>2>", "<@12>", members) == Some("@1 <@12>")
    ensures Contains("@1 <@12>", "<@12>")
  {
    TagOf12();
    ReplaceAcrossTags();
    assert "<@12>"[..2] == "<@";
    assert "@" + members[12] == "@1";
    ContainsTag12();
  }

  lemma TagOf12()
    ensures TagId("<@12>") == Some(12)
  {
    assert DigitsOnly("<@12>") == "12";
    assert "12"[..1] == "1" && "1"[..0] == "";
  }

  lemma ReplaceAcrossTags()
    ensures Replace("<@12> <<@12>2>", "<@12>", "@1") == "@1 <@12>"
  {
    var tag, rep := "<@12>", "@1";
    assert "2>"[..0] == "";
    assert Replace("2>", tag, rep) == "2>";
    var c := "<@12>2>";
    assert c[..5] == tag && c[5..] == "2>";
    assert Replace(c, tag, rep) == rep + Replace("2>", tag, rep);
    assert rep + "2>" == "@12>";
    var b := "<<@12>2>";
    assert b[..5][1] == '<' && b[1..] == c;
    assert Replace(b, tag, rep) == [b[0]] + Replace(c, tag, rep);
    assert ['<'] + "@12>" == "<@12>";
    var a := " <<@12>2>";
    assert a[..5][0] == ' ' && a[1..] == b;
    assert Replace(a, tag, rep) == [a[0]] + Replace(b, tag, rep);
    assert [' '] + "<@12>" == " <@12>";
    var m := "<@12> <<@12>2>";
    assert m[..5] == tag && m[5..] == a;
    assert Replace(m, tag, rep) == rep + Replace(a, tag, rep);
    assert rep + " <@12>" == "@1 <@12>";
  }

  lemma ContainsTag12()
    ensures Contains("@1 <@12>", "<@12>")
  {
    var r := "@1 <@12>";
    assert r[3..][..5] == "<@12>";
    assert Contains(r[3..], "<@12>");
    assert r[2..][1..] == r[3..];
    assert Contains(r[2..], "<@12>");
    assert r[1..][1..] == r[2..];
    assert Contains(r[1..], "<@12>");
  }

  /** One instance of TagId: the id of `<@42>` is 42 (the general rule is TagId's own contract). */
  lemma MentionOf42()
    ensures TagId("<@42>") == Some(42)
  {
    assert DigitsOnly("<@42>") == "42";
    assert "42"[..1] == "4" && "4"[..0] == "";
  }
}
