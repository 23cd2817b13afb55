/**
 * The few java.lang.String operations the core relies on, over `seq<char>`:
 * `toLowerCase`, `replace(CharSequence, CharSequence)` and joining with a
 * separator, plus a character count used to reason about placeholders.
 */
module Text {

  /** `Character.toLowerCase`, restricted to the ASCII letters the core uses. */
  function LowerChar(c: char): char {
    if 'A' <= c <= 'Z' then (c as int - 'A' as int + 'a' as int) as char else c
  }

  /** `String.toLowerCase`, character by character. */
  function ToLower(s: string): string {
    seq(|s|, i requires 0 <= i < |s| => LowerChar(s[i]))
  }

  /** True when `target` occurs in `s` starting at index `i`. */
  predicate OccursAt(s: string, target: string, i: int) {
    0 <= i && i + |target| <= |s| && s[i..i + |target|] == target
  }

  /**
   * `s.replace(target, replacement)`: every non-overlapping occurrence of
   * `target`, scanning left to right, is replaced.
   */
  function ReplaceAll(s: string, target: string, replacement: string): (r: string)
    requires target != []
    ensures |replacement| <= |target| ==> |r| <= |s|
    decreases |s|
  {
    if |s| < |target| then s
    else if s[..|target|] == target then replacement + ReplaceAll(s[|target|..], target, replacement)
    else [s[0]] + ReplaceAll(s[1..], target, replacement)
  }

  /** `s.replace(" ", "")`. */
  function RemoveSpaces(s: string): string {
    ReplaceAll(s, " ", "")
  }

  /** The parts joined with `sep` between neighbours (Java's `String.join`). */
  function Join(parts: seq<string>, sep: string): string {
    if |parts| == 0 then ""
    else if |parts| == 1 then parts[0]
    else Join(parts[..|parts| - 1], sep) + sep + parts[|parts| - 1]
  }

  /** Number of occurrences of `c` in `s`. */
  function Count(c: char, s: string): nat {
    if s == [] then 0 else (if s[0] == c then 1 else 0) + Count(c, s[1..])
  }

  /** A prefix in which no occurrence of `target` starts is copied unchanged. */
  lemma {:induction false} ReplaceAllSkips(a: string, b: string, target: string, replacement: string)
    requires target != []
    requires forall i :: 0 <= i < |a| ==> !OccursAt(a + b, target, i)
    ensures ReplaceAll(a + b, target, replacement) == a + ReplaceAll(b, target, replacement)
  {
    if a == [] {
      assert a + b == b;
    } else if |a + b| < |target| {
      assert |b| < |target|;
    } else {
      var s := a + b;
      assert !OccursAt(s, target, 0);
      assert s[1..] == a[1..] + b;
      assert ReplaceAll(s, target, replacement) == [a[0]] + ReplaceAll(a[1..] + b, target, replacement);
      NoOccurrenceInTail(a, b, target);
      ReplaceAllSkips(a[1..], b, target, replacement);
      assert a == [a[0]] + a[1..];
    }
  }

  /** Dropping the first character of `a` keeps `target` from starting in what is left of it. */
  lemma NoOccurrenceInTail(a: string, b: string, target: string)
    requires a != []
    requires forall i :: 0 <= i < |a| ==> !OccursAt(a + b, target, i)
    ensures forall i :: 0 <= i < |a[1..]| ==> !OccursAt(a[1..] + b, target, i)
  {
    forall i | 0 <= i < |a[1..]|
      ensures !OccursAt(a[1..] + b, target, i)
    {
      assert !OccursAt(a + b, target, i + 1);
      if i + |target| <= |a[1..] + b| {
        assert (a + b)[i + 1..i + 1 + |target|] == (a[1..] + b)[i..i + |target|];
      }
    }
  }

  /** A string in which `target` does not occur is left as it is. */
  lemma ReplaceAllNoOccurrence(s: string, target: string, replacement: string)
    requires target != []
    requires forall i :: 0 <= i < |s| ==> !OccursAt(s, target, i)
    ensures ReplaceAll(s, target, replacement) == s
  {
    assert s + [] == s;
    ReplaceAllSkips(s, [], target, replacement);
  }

  /** Replacing a single character distributes over concatenation. */
  lemma {:induction false} ReplaceCharAppend(a: string, b: string, c: char, replacement: string)
    ensures ReplaceAll(a + b, [c], replacement) == ReplaceAll(a, [c], replacement) + ReplaceAll(b, [c], replacement)
  {
    if a == [] {
      assert a + b == b;
    } else {
      assert (a + b)[..1] == a[..1];
      assert (a + b)[1..] == a[1..] + b;
      ReplaceCharAppend(a[1..], b, c, replacement);
    }
  }

  /** True when `s` contains no space. */
  predicate SpaceFree(s: string) {
    forall i :: 0 <= i < |s| ==> s[i] != ' '
  }

  /** A string without spaces is left as it is by `replace(" ", "")`. */
  lemma RemoveSpacesOfSpaceFree(s: string)
    requires SpaceFree(s)
    ensures RemoveSpaces(s) == s
  {
    forall i | 0 <= i < |s| ensures !OccursAt(s, " ", i) {
      assert s[i..i + 1] == [s[i]];
    }
    ReplaceAllNoOccurrence(s, " ", "");
  }

  /** Removing the spaces around one space removes it and those on either side. */
  lemma RemoveSpacesSplit(s: string, a: string, b: string)
    requires s == a + " " + b
    ensures RemoveSpaces(s) == RemoveSpaces(a) + RemoveSpaces(b)
  {
    ReplaceCharAppend(a + " ", b, ' ', "");
    ReplaceCharAppend(a, " ", ' ', "");
  }

  /** Lower-casing distributes over concatenation. */
  lemma ToLowerAppend(a: string, b: string)
    ensures ToLower(a + b) == ToLower(a) + ToLower(b)
  {
  }

  /** Lower-casing and removing spaces commute: lower-casing neither makes nor removes a space. */
  lemma {:induction false} LowerRemoveSpaces(s: string)
    ensures RemoveSpaces(ToLower(s)) == ToLower(RemoveSpaces(s))
  {
    if s != [] {
      var t := ToLower(s);
      assert t[1..] == ToLower(s[1..]);
      LowerRemoveSpaces(s[1..]);
      if s[0] == ' ' {
        assert s[..1] == " " && t[..1] == " ";
      } else {
        assert s[..1] != " " && t[..1] != " " by {
          assert s[..1][0] == s[0] && t[..1][0] == t[0];
        }
        ToLowerAppend([s[0]], RemoveSpaces(s[1..]));
      }
    }
  }

  /** Removing spaces leaves no space behind. */
  lemma {:induction false} RemoveSpacesLeavesNone(s: string)
    ensures SpaceFree(RemoveSpaces(s))
  {
    if s != [] {
      RemoveSpacesLeavesNone(s[1..]);
      assert s[..1] == [s[0]];
    }
  }

  /** Removing spaces twice is removing them once. */
  lemma RemoveSpacesIdempotent(s: string)
    ensures RemoveSpaces(RemoveSpaces(s)) == RemoveSpaces(s)
  {
    RemoveSpacesLeavesNone(s);
    RemoveSpacesOfSpaceFree(RemoveSpaces(s));
  }

  /** True when `c` does not occur in `s`. */
  predicate Lacks(c: char, s: string) {
    forall i :: 0 <= i < |s| ==> s[i] != c
  }

  /** A character that does not occur is counted zero times. */
  lemma {:induction false} CountLacking(c: char, s: string)
    requires Lacks(c, s)
    ensures Count(c, s) == 0
  {
    if s != [] {
      CountLacking(c, s[1..]);
    }
  }

  /** `c` is absent from a concatenation exactly when it is absent from both parts. */
  lemma LacksAppend(c: char, a: string, b: string)
    ensures Lacks(c, a + b) <==> Lacks(c, a) && Lacks(c, b)
  {
    if Lacks(c, a) && Lacks(c, b) {
      forall i | 0 <= i < |a + b|
        ensures (a + b)[i] != c
      {
        if i >= |a| {
          assert (a + b)[i] == b[i - |a|];
        }
      }
    }
    if Lacks(c, a + b) {
      forall i | 0 <= i < |a|
        ensures a[i] != c
      {
        assert (a + b)[i] == a[i];
      }
      forall j | 0 <= j < |b|
        ensures b[j] != c
      {
        assert (a + b)[|a| + j] == b[j];
      }
    }
  }

  /** Only the middle part of a text counts when the parts around it lack `c`. */
  lemma CountBetween(c: char, s: string, pre: string, mid: string, post: string)
    requires s == pre + mid + post
    requires Lacks(c, pre) && Lacks(c, post)
    ensures Count(c, s) == Count(c, mid)
  {
    CountLacking(c, pre);
    CountLacking(c, post);
    CountAppend(c, pre, mid);
    CountAppend(c, pre + mid, post);
  }

  /** Counting distributes over concatenation. */
  lemma {:induction false} CountAppend(c: char, a: string, b: string)
    ensures Count(c, a + b) == Count(c, a) + Count(c, b)
  {
    if a != [] {
      assert (a + b)[1..] == a[1..] + b;
      CountAppend(c, a[1..], b);
    } else {
      assert a + b == b;
    }
  }

  /**
   * Removing every `c` shortens the string by the number of `c`s in it:
   * `s.length() - s.replace("?", "").length()` counts the question marks.
   */
  lemma {:induction false} RemovalCount(c: char, s: string)
    ensures |ReplaceAll(s, [c], "")| + Count(c, s) == |s|
  {
    if s != [] {
      RemovalCount(c, s[1..]);
    }
  }

  /**
   * True when `replaceFirst` with a pattern that has no groups, such as
   * `[?]`, accepts `r` as its replacement: a backslash must escape some next
   * character, and a dollar sign must start the only group reference there
   * is, `$0`. Any other replacement makes the call throw.
   */
  predicate ReplacementParses(r: string)
    decreases |r|
  {
    if r == [] then true
    else if r[0] == '\\' then |r| >= 2 && ReplacementParses(r[2..])
    else if r[0] == '$' then |r| >= 2 && r[1] == '0' && ReplacementParses(r[2..])
    else ReplacementParses(r[1..])
  }

  /** A replacement with neither a dollar sign nor a backslash is accepted. */
  lemma {:induction false} PlainReplacementParses(r: string)
    requires Lacks('$', r) && Lacks('\\', r)
    ensures ReplacementParses(r)
  {
    if r != [] {
      PlainReplacementParses(r[1..]);
    }
  }

  /** A dollar sign followed by anything but `0` is refused, whatever comes before it. */
  lemma {:induction false} DollarRefused(pre: string, d: char, post: string)
    requires d != '0'
    requires Lacks('$', pre) && Lacks('\\', pre)
    ensures !ReplacementParses(pre + "$" + [d] + post)
  {
    if pre != [] {
      assert (pre + "$" + [d] + post)[1..] == pre[1..] + "$" + [d] + post;
      DollarRefused(pre[1..], d, post);
    } else {
      assert pre + "$" + [d] + post == ['$', d] + post;
    }
  }
}
