/** Cleaning the language model's reply before it is parsed:
    `text.replace(/```json|```/g, '').trim()`. The regular expression scans
    left to right; at each position it tries the longer alternative first
    and resumes after a removed match. */
module Fences {
  import opened Text

  const Fence := "```"
  const JsonFence := "```json"

  predicate StartsWith(s: string, p: string) {
    |p| <= |s| && s[..|p|] == p
  }

  /** `s.replace(/```json|```/g, '')`. */
  function RemoveFences(s: string): string
    decreases |s|
  {
    if |s| == 0 then ""
    else if StartsWith(s, JsonFence) then RemoveFences(s[7..])
    else if StartsWith(s, Fence) then RemoveFences(s[3..])
    else [s[0]] + RemoveFences(s[1..])
  }

  /** The text handed to `JSON.parse`. */
  function StripFences(s: string): string {
    Trim(RemoveFences(s))
  }

  /** A cleaned reply that starts with a backtick comes from a reply that
      starts with one. */
  lemma {:induction false} LeadingBacktick(u: string)
    requires |RemoveFences(u)| > 0 && RemoveFences(u)[0] == '`'
    ensures |u| > 0 && u[0] == '`'
    decreases |u|
  {
    if StartsWith(u, JsonFence) {
      assert u[..7][0] == u[0];
    } else if StartsWith(u, Fence) {
      assert u[..3][0] == u[0];
    }
  }

  /** A cleaned reply that starts with two backticks comes from a reply
      that starts with two. */
  lemma LeadingBackticks(t: string)
    requires |RemoveFences(t)| > 1 && RemoveFences(t)[0] == '`' && RemoveFences(t)[1] == '`'
    ensures |t| > 1 && t[0] == '`' && t[1] == '`'
  {
    if StartsWith(t, JsonFence) {
      assert t[..7][0] == t[0] && t[..7][1] == t[1];
    } else if StartsWith(t, Fence) {
      assert t[..3][0] == t[0] && t[..3][1] == t[1];
    } else {
      assert RemoveFences(t) == [t[0]] + RemoveFences(t[1..]);
      LeadingBacktick(t[1..]);
    }
  }

  /** No fence survives the replacement: a backtick is kept only when the
      two characters after it in the output are not both backticks. */
  lemma {:induction false} NoFenceLeft(s: string)
    ensures !Contains(RemoveFences(s), Fence)
    decreases |s|
  {
    if |s| == 0 {
    } else if StartsWith(s, JsonFence) {
      NoFenceLeft(s[7..]);
    } else if StartsWith(s, Fence) {
      NoFenceLeft(s[3..]);
    } else {
      var rest := RemoveFences(s[1..]);
      var r := RemoveFences(s);
      assert r == [s[0]] + rest;
      NoFenceLeft(s[1..]);
      forall i | 0 <= i <= |r| - 3
        ensures !MatchAt(r, Fence, i)
      {
        if i == 0 {
          if MatchAt(r, Fence, 0) {
            assert r[..3] == Fence;
            assert rest[0] == r[1] && rest[1] == r[2];
            LeadingBackticks(s[1..]);
          }
        } else {
          assert r[i..i + 3] == rest[i - 1..i + 2];
          assert !MatchAt(rest, Fence, i - 1);
        }
      }
    }
  }

  lemma JsonFenceIsFence(s: string)
    ensures StartsWith(s, JsonFence) ==> StartsWith(s, Fence)
  {
    if StartsWith(s, JsonFence) {
      assert s[..3] == s[..7][..3];
    }
  }

  lemma FenceOpensWithBacktick(s: string)
    ensures StartsWith(s, Fence) ==> s[0] == '`'
  {
    if StartsWith(s, Fence) {
      assert s[..3][0] == s[0];
    }
  }

  /** A reply without a fence is left as it is. */
  lemma {:induction false} NoFenceUnchanged(s: string)
    requires !Contains(s, Fence)
    ensures RemoveFences(s) == s
    decreases |s|
  {
    if |s| > 0 {
      assert !MatchAt(s, Fence, 0);
      JsonFenceIsFence(s);
      forall i | 0 <= i <= |s| - 1 - 3
        ensures !MatchAt(s[1..], Fence, i)
      {
        assert s[1..][i..i + 3] == s[i + 1..i + 4];
        assert !MatchAt(s, Fence, i + 1);
      }
      NoFenceUnchanged(s[1..]);
    }
  }

  /** Removing fences a second time changes nothing. */
  lemma RemoveFencesIdempotent(s: string)
    ensures RemoveFences(RemoveFences(s)) == RemoveFences(s)
  {
    NoFenceLeft(s);
    NoFenceUnchanged(RemoveFences(s));
  }

  /** Cleaning a cleaned reply changes nothing. */
  lemma StripFencesIdempotent(s: string)
    ensures StripFences(StripFences(s)) == StripFences(s)
  {
    var r := RemoveFences(s);
    var t := Trim(r);
    NoFenceLeft(s);
    if Contains(t, Fence) {
      ContainsTrans(r, t, Fence);
    }
    NoFenceUnchanged(t);
    TrimIdentity(t);
  }

  /** Text before a fence is kept as it is. */
  lemma {:induction false} PlainPrefix(a: string, b: string)
    requires '`' !in a
    ensures RemoveFences(a + b) == a + RemoveFences(b)
    decreases |a|
  {
    if |a| > 0 {
      var s := a + b;
      assert s[0] == a[0];
      JsonFenceIsFence(s);
      FenceOpensWithBacktick(s);
      assert s[1..] == a[1..] + b;
      PlainPrefix(a[1..], b);
      assert RemoveFences(s) == [a[0]] + (a[1..] + RemoveFences(b));
      assert [a[0]] + (a[1..] + RemoveFences(b)) == a + RemoveFences(b);
    } else {
      assert a + b == b;
    }
  }

  /** A reply wrapped in a `json` code block yields the block's body. */
  lemma FencedBlock(body: string)
    requires '`' !in body
    requires |body| > 0 ==> !IsJsSpace(body[0]) && !IsJsSpace(body[|body| - 1])
    ensures StripFences(JsonFence + "\n" + body + "\n" + Fence) == body
  {
    var inner := "\n" + body + "\n";
    var s := JsonFence + inner + Fence;
    assert JsonFence + "\n" + body + "\n" + Fence == s;
    OpeningFence(inner + Fence);
    assert s == JsonFence + (inner + Fence);
    ClosingFence();
    PlainPrefix(inner, Fence);
    assert inner + "" == inner;
    TrimFramed(body);
  }

  lemma OpeningFence(t: string)
    ensures RemoveFences(JsonFence + t) == RemoveFences(t)
  {
    var s := JsonFence + t;
    assert s[..7] == JsonFence && s[7..] == t;
  }

  lemma ClosingFence()
    ensures RemoveFences(Fence) == ""
  {
    assert Fence[..3] == Fence && Fence[3..] == "";
  }

  lemma TrimFramed(body: string)
    requires |body| > 0 ==> !IsJsSpace(body[0]) && !IsJsSpace(body[|body| - 1])
    ensures Trim("\n" + body + "\n") == body
  {
    var s := "\n" + body + "\n";
    assert s[1..] == body + "\n";
    assert TrimStart(s) == TrimStart(body + "\n");
    if |body| > 0 {
      assert TrimStart(body + "\n") == body + "\n";
      assert (body + "\n")[..|body|] == body;
      assert TrimEnd(body + "\n") == TrimEnd(body);
    } else {
      assert TrimStart("\n") == "";
    }
  }
}
