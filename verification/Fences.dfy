/** Code fences in a model's reply. */
module Fences {
  import opened Strings

  const FENCE := "```"

  function AfterLine(t: string): string {
    if Contains(t, "\n") then t[Index(t, "\n") + 1..] else t
  }

  function BeforeFence(t: string): string {
    if Contains(t, FENCE) then t[..Index(t, FENCE)] else t
  }

  /** The first fence, with a language line and a closing fence. */
  function Fenced(lang: string, body: string): string {
    FENCE + lang + "\n" + body + FENCE
  }

  /** Three backticks put behind `t` are the first ones. */
  ghost predicate FenceFree(t: string) {
    forall k :: !OccursAt(t + "``", FENCE, k)
  }

  lemma FirstFence(t: string, u: string)
    requires FenceFree(t)
    ensures Contains(t + FENCE + u, FENCE) && Index(t + FENCE + u, FENCE) == |t|
  {
    var s := t + FENCE + u;
    assert OccursAt(s, FENCE, |t|);
    forall k | 0 <= k < |t| ensures !OccursAt(s, FENCE, k) {
      SamePrefix(s, t + "``", k);
      assert !OccursAt(t + "``", FENCE, k);
    }
  }

  lemma SamePrefix(s: string, t: string, k: nat)
    requires |t| <= |s| && t == s[..|t|] && k + 3 <= |t|
    ensures s[k..k + 3] == t[k..k + 3]
  {
  }

  lemma CutLine(lang: string, u: string)
    requires '\n' !in lang
    ensures AfterLine(lang + "\n" + u) == u
  {
    var t := lang + "\n" + u;
    assert OccursAt(t, "\n", |lang|);
    forall k | OccursAt(t, "\n", k) ensures k >= |lang| {
      assert t[k] == t[k..k + 1][0];
    }
    assert t[|lang| + 1..] == u;
  }

  lemma FenceFreeTail(t: string, a: nat)
    requires FenceFree(t) && a <= |t|
    ensures FenceFree(t[a..])
  {
    var tail := t[a..] + "``";
    assert tail == (t + "``")[a..];
    forall k ensures !OccursAt(tail, FENCE, k) {
      assert !OccursAt(t + "``", FENCE, a + k);
      assert 0 <= k && k + 3 <= |tail| ==> tail[k..k + 3] == (t + "``")[a + k..a + k + 3];
    }
  }
}
