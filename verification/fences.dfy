/** Clean-up of the generated text before it is parsed: every "```json" is
    removed, then every "```", then surrounding whitespace is trimmed
    (src/app/api/roast/route.ts, lines 194-197). */
module Fences {
  import opened Text

  const JsonFence: string := "```json"
  const Fence: string := "```"

  /** The cleaned text handed to the JSON parser. It never contains a code
      fence and never starts or ends with whitespace. */
  function StripFences(text: string): (r: string)
    ensures !IsInfix(Fence, r)
    ensures IsTrimmed(r)
  {
    var u := RemoveAll(RemoveAll(text, JsonFence), Fence);
    NoFenceAfterRemoval(RemoveAll(text, JsonFence));
    TrimKeepsAbsence(Fence, u);
    Trim(u)
  }

  /** An input that does not start with two backticks yields an output
      that does not either. */
  lemma RemovalHeadTicks(s: string)
    requires |s| < 2 || s[0] != '`' || s[1] != '`'
    ensures var r := RemoveAll(s, Fence); |r| < 2 || r[0] != '`' || r[1] != '`'
  {
  }

  /** Removing every "```" cannot splice a new "```" together from the
      pieces around a removed one: the scan is leftmost-first, and the
      pattern is one repeated character. */
  lemma {:induction false} NoFenceAfterRemoval(s: string)
    ensures !IsInfix(Fence, RemoveAll(s, Fence))
    decreases |s|
  {
    var r := RemoveAll(s, Fence);
    if |s| < |Fence| {
    } else if s[..|Fence|] == Fence {
      NoFenceAfterRemoval(s[|Fence|..]);
    } else {
      var rest := RemoveAll(s[1..], Fence);
      assert r == [s[0]] + rest;
      NoFenceAfterRemoval(s[1..]);
      forall i | 0 <= i && i + |Fence| <= |r|
        ensures !OccursAt(r, Fence, i)
      {
        if i == 0 {
          if s[0] == '`' {
            assert s[1] != '`' || s[2] != '`';
            RemovalHeadTicks(s[1..]);
            assert r[1] == rest[0] && r[2] == rest[1];
          }
        } else {
          assert r[i..i + |Fence|] == rest[i - 1..i - 1 + |Fence|];
          assert !OccursAt(rest, Fence, i - 1);
        }
      }
    }
  }

  /** Text without a fence and without surrounding whitespace is a fixed
      point of the clean-up. */
  lemma CleanTextIsFixed(x: string)
    requires !IsInfix(Fence, x) && IsTrimmed(x)
    ensures StripFences(x) == x
  {
    FenceFreeIsJsonFenceFree(x);
    RemoveAllAbsent(x, JsonFence);
    RemoveAllAbsent(x, Fence);
    TrimTrimmed(x);
  }

  /** Cleaning already-cleaned text changes nothing. */
  lemma StripFencesIdempotent(text: string)
    ensures StripFences(StripFences(text)) == StripFences(text)
  {
    CleanTextIsFixed(StripFences(text));
  }

  /** "```json" starts with "```", so text without the one lacks the other. */
  lemma FenceFreeIsJsonFenceFree(x: string)
    requires !IsInfix(Fence, x)
    ensures !IsInfix(JsonFence, x)
  {
    forall i | 0 <= i && i + |JsonFence| <= |x|
      ensures !OccursAt(x, JsonFence, i)
    {
      assert x[i..i + |Fence|] == x[i..i + |JsonFence|][..|Fence|];
      assert !OccursAt(x, Fence, i);
    }
  }

  /** Removing "```" from text that starts with a backtick-free part leaves
      that part in place. */
  lemma RemoveFenceKeepsTickFreePrefix(x: string, t: string)
    requires forall k :: 0 <= k < |x| ==> x[k] != '`'
    ensures RemoveAll(x + t, Fence) == x + RemoveAll(t, Fence)
  {
    forall i | 0 <= i < |x|
      ensures !OccursAt(x + t, Fence, i)
    {
      if i + |Fence| <= |x + t| {
        assert (x + t)[i..i + |Fence|][0] == x[i];
      }
    }
    RemoveAllKeepsPrefix(x, t, Fence);
  }

  /** The removal is one left-to-right pass, not a repeat-until-gone loop:
      removing the inner "```json" of "```j```jsonson" joins its two sides
      into a new "```json", and that one stays. */
  lemma JsonFenceRemovalIsSinglePass()
    ensures RemoveAll("```j```jsonson", JsonFence) == "```json"
    ensures IsInfix(JsonFence, RemoveAll("```j```jsonson", JsonFence))
  {
    var x, t := "```j", "```jsonson";
    assert x + t == "```j```jsonson";
    assert (x + t)[3] == 'j' && (x + t)[4] == '`';
    forall i | 0 <= i < |x|
      ensures !OccursAt(x + t, JsonFence, i)
    {
      if i == 0 {
        assert (x + t)[i..i + |JsonFence|][4] == '`';
      } else {
        assert (x + t)[i..i + |JsonFence|][3 - i] == 'j';
      }
    }
    RemoveAllKeepsPrefix(x, t, JsonFence);
    assert t == JsonFence + "son";
    RemoveAllDropsLeading(JsonFence, "son");
    assert RemoveAll("son", JsonFence) == "son";
    assert x + "son" == JsonFence;
    assert OccursAt(JsonFence, JsonFence, 0);
  }

  /** A reply wrapped in a "```json ... ```" block is cleaned to its trimmed
      body, as long as the body itself holds no backtick. */
  lemma StripFencedBlock(x: string)
    requires forall k :: 0 <= k < |x| ==> x[k] != '`'
    ensures StripFences(JsonFence + x + Fence) == Trim(x)
  {
    var s := JsonFence + x + Fence;
    assert s[..|JsonFence|] == JsonFence;
    assert s[|JsonFence|..] == x + Fence;
    forall i | 0 <= i && i + |JsonFence| <= |x + Fence|
      ensures !OccursAt(x + Fence, JsonFence, i)
    {
      assert (x + Fence)[i..i + |JsonFence|][0] == x[i];
    }
    RemoveAllAbsent(x + Fence, JsonFence);
    RemoveFenceKeepsTickFreePrefix(x, Fence);
    assert RemoveAll(Fence, Fence) == [];
    assert x + [] == x;
  }

  /** Text made only of whitespace is cleaned to the empty string. */
  lemma StripBlankText(text: string)
    requires forall k :: 0 <= k < |text| ==> IsWhitespace(text[k])
    ensures StripFences(text) == ""
  {
    forall i | 0 <= i && i + |Fence| <= |text|
      ensures !OccursAt(text, Fence, i)
    {
      assert text[i..i + |Fence|][0] == text[i];
    }
    FenceFreeIsJsonFenceFree(text);
    RemoveAllAbsent(text, JsonFence);
    RemoveAllAbsent(text, Fence);
    TrimIsSlice(text);
  }
}
