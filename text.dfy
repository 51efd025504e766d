/** String helpers the two management views rely on: `toLowerCase`,
    `includes`, and the `split(" ")` / first-character chain behind the
    avatar initials. Strings are sequences of characters; case folding is
    ASCII only. */
module Text {

  predicate IsUpper(c: char) {
    'A' <= c <= 'Z'
  }

  /** `toLowerCase` on one character, restricted to ASCII letters. */
  function LowerChar(c: char): (r: char)
    ensures !IsUpper(r)
    ensures IsUpper(c) ==> r as int == c as int + 32
    ensures !IsUpper(c) ==> r == c
  {
    if IsUpper(c) then (c as int + 32) as char else c
  }

  /** `toLowerCase` on a whole string, character by character. */
  function Lower(s: string): (r: string)
    ensures |r| == |s|
    ensures forall i :: 0 <= i < |s| ==> r[i] == LowerChar(s[i])
    ensures forall c :: c in r ==> !IsUpper(c)
  {
    seq(|s|, i requires 0 <= i < |s| => LowerChar(s[i]))
  }

  /** Lower-casing twice is lower-casing once. */
  lemma LowerIdempotent(s: string)
    ensures Lower(Lower(s)) == Lower(s)
  {
    var l := Lower(s);
    forall i | 0 <= i < |l| ensures Lower(l)[i] == l[i] {
      assert l[i] in l;
    }
  }

  /** A string without upper-case letters is its own lower-cased form. */
  lemma LowerOfLowerCase(s: string)
    requires forall i :: 0 <= i < |s| ==> !IsUpper(s[i])
    ensures Lower(s) == s
  {
  }

  /** A lower-case letter that is missing from `s` in both cases is missing
      from its lower-cased form. */
  lemma LowerLacks(s: string, c: char)
    requires 'a' <= c <= 'z'
    requires c !in s && (c as int - 32) as char !in s
    ensures c !in Lower(s)
  {
    forall i | 0 <= i < |s| ensures Lower(s)[i] != c {
      assert s[i] in s;
    }
  }

  /** `needle` occurs in `hay` starting at position `i`. */
  ghost predicate OccursAt(hay: string, needle: string, i: int) {
    0 <= i && i + |needle| <= |hay| && hay[i..i + |needle|] == needle
  }

  /** Substring existence: the meaning of `hay.includes(needle)`. */
  ghost predicate Contains(hay: string, needle: string) {
    exists i :: OccursAt(hay, needle, i)
  }

  /** `String.prototype.includes`, scanning start positions left to right. */
  function Includes(hay: string, needle: string): (b: bool)
    ensures needle == [] ==> b
    ensures b ==> |needle| <= |hay|
    decreases |hay|
  {
    needle <= hay || (|hay| > 0 && Includes(hay[1..], needle))
  }

  /** The scan finds the needle exactly when it occurs somewhere. */
  lemma {:induction false} IncludesIffContains(hay: string, needle: string)
    ensures Includes(hay, needle) <==> Contains(hay, needle)
    decreases |hay|
  {
    if needle <= hay {
      assert OccursAt(hay, needle, 0);
    } else if |hay| > 0 {
      var tail := hay[1..];
      IncludesIffContains(tail, needle);
      if Contains(tail, needle) {
        var i :| OccursAt(tail, needle, i);
        assert hay[i + 1..i + 1 + |needle|] == tail[i..i + |needle|];
        assert OccursAt(hay, needle, i + 1);
      }
      if Contains(hay, needle) {
        var i :| OccursAt(hay, needle, i);
        if i > 0 {
          assert tail[i - 1..i - 1 + |needle|] == hay[i..i + |needle|];
          assert OccursAt(tail, needle, i - 1);
        }
      }
    }
  }

  /** Inside an occurrence the haystack spells out the needle. */
  lemma OccurrenceCharAt(hay: string, needle: string, i: int, k: int)
    requires OccursAt(hay, needle, i) && 0 <= k < |needle|
    ensures hay[i + k] == needle[k]
  {
    assert hay[i..i + |needle|][k] == hay[i + k];
  }

  /** A needle with a character that the haystack lacks does not occur in it. */
  lemma MissingCharExcludes(hay: string, needle: string, k: nat)
    requires k < |needle| && needle[k] !in hay
    ensures !Contains(hay, needle)
  {
    forall i | OccursAt(hay, needle, i) ensures false {
      OccurrenceCharAt(hay, needle, i, k);
    }
  }

  /** A field that lacks one of the term's lower-case letters in both cases
      does not contain the term once lower-cased. */
  lemma FieldLacksLetter(field: string, term: string, k: nat)
    requires k < |term| && 'a' <= term[k] <= 'z'
    requires term[k] !in field && (term[k] as int - 32) as char !in field
    ensures !Contains(Lower(field), term)
  {
    LowerLacks(field, term[k]);
    MissingCharExcludes(Lower(field), term, k);
  }

  /** A separator character that the needle lacks splits the search: an
      occurrence lies wholly on one side of it. */
  lemma SeparatorSplits(left: string, sep: char, right: string, needle: string)
    requires sep !in needle
    requires Contains(left + [sep] + right, needle)
    ensures Contains(left, needle) || Contains(right, needle)
  {
    var hay := left + [sep] + right;
    var i :| OccursAt(hay, needle, i);
    if i + |needle| <= |left| {
      assert hay[i..i + |needle|] == left[i..i + |needle|];
      assert OccursAt(left, needle, i);
    } else if i > |left| {
      assert hay[i..i + |needle|] == right[i - |left| - 1..i - |left| - 1 + |needle|];
      assert OccursAt(right, needle, i - |left| - 1);
    } else {
      assert hay[|left|] == sep;
      OccurrenceCharAt(hay, needle, i, |left| - i);
    }
  }

  /** `s.split(" ")`: the pieces between single spaces, including empty
      pieces where spaces are adjacent or at either end. */
  function Split(s: string): (ws: seq<string>)
    ensures |ws| >= 1
    ensures forall k :: 0 <= k < |ws| ==> ' ' !in ws[k]
  {
    if s == [] then [[]]
    else if s[0] == ' ' then [[]] + Split(s[1..])
    else
      var rest := Split(s[1..]);
      [[s[0]] + rest[0]] + rest[1..]
  }

  /** `ws.join(" ")`. */
  function JoinSpaced(ws: seq<string>): string
    requires |ws| >= 1
  {
    if |ws| == 1 then ws[0] else ws[0] + " " + JoinSpaced(ws[1..])
  }

  /** Joining the pieces of a split gives back the original string. */
  lemma {:induction false} JoinSplit(s: string)
    ensures JoinSpaced(Split(s)) == s
  {
    if s == [] {
    } else if s[0] == ' ' {
      JoinSplit(s[1..]);
      assert Split(s) == [[]] + Split(s[1..]);
      assert Split(s)[1..] == Split(s[1..]);
    } else {
      var rest := Split(s[1..]);
      JoinSplit(s[1..]);
      var ws := Split(s);
      assert ws[0] == [s[0]] + rest[0];
      assert ws[1..] == rest[1..];
      if |rest| == 1 {
        assert s == [s[0]] + s[1..];
      } else {
        assert JoinSpaced(rest) == rest[0] + " " + JoinSpaced(rest[1..]);
        assert s == [s[0]] + s[1..];
      }
    }
  }

  /** Splitting a join of space-free pieces gives back the pieces. */
  lemma {:induction false} SplitJoin(ws: seq<string>)
    requires |ws| >= 1
    requires forall k :: 0 <= k < |ws| ==> ' ' !in ws[k]
    ensures Split(JoinSpaced(ws)) == ws
    decreases |ws|, |ws[0]|
  {
    if |ws| == 1 {
      SplitSpaceFree(ws[0]);
    } else if ws[0] == [] {
      SplitJoin(ws[1..]);
      assert JoinSpaced(ws) == [' '] + JoinSpaced(ws[1..]);
      assert JoinSpaced(ws)[1..] == JoinSpaced(ws[1..]);
      assert ws == [[]] + ws[1..];
    } else {
      var shorter := [ws[0][1..]] + ws[1..];
      assert forall k :: 0 <= k < |shorter| ==> ' ' !in shorter[k] by {
        forall k | 0 <= k < |shorter| ensures ' ' !in shorter[k] {
          if k == 0 {
            assert forall c :: c in ws[0][1..] ==> c in ws[0];
          } else {
            assert shorter[k] == ws[k];
          }
        }
      }
      SplitJoin(shorter);
      var j := JoinSpaced(ws);
      assert j == [ws[0][0]] + JoinSpaced(shorter);
      assert j[0] == ws[0][0] && j[1..] == JoinSpaced(shorter);
      assert ws[0][0] != ' ' by { assert ws[0][0] in ws[0]; }
      assert [ws[0][0]] + ws[0][1..] == ws[0];
      assert shorter[1..] == ws[1..];
      assert ws == [ws[0]] + ws[1..];
    }
  }

  /** A string without spaces splits into itself. */
  lemma {:induction false} SplitSpaceFree(s: string)
    requires ' ' !in s
    ensures Split(s) == [s]
  {
    if s != [] {
      assert s[0] in s;
      assert forall c :: c in s[1..] ==> c in s;
      SplitSpaceFree(s[1..]);
      assert s == [s[0]] + s[1..];
    }
  }

  /** The first character of each piece, written `n[0]` in the source; an
      empty piece yields `undefined`, which `join("")` renders as nothing. */
  function FirstChars(ws: seq<string>): string {
    if ws == [] then []
    else (if |ws[0]| > 0 then [ws[0][0]] else []) + FirstChars(ws[1..])
  }

  /** Independent reading of the same thing: the characters of `s` that are
      not spaces and stand at the start of `s` or right after a space.
      `afterSpace` says whether the previous character was a space. */
  function WordStarts(s: string, afterSpace: bool): (r: string)
    ensures forall c :: c in r ==> c in s && c != ' '
    ensures |r| <= |s|
  {
    if s == [] then []
    else (if afterSpace && s[0] != ' ' then [s[0]] else [])
         + WordStarts(s[1..], s[0] == ' ')
  }

  /** The first characters of the pieces of a split are the word starts. */
  lemma {:induction false} FirstCharsOfSplit(s: string, afterSpace: bool)
    ensures FirstChars(if afterSpace then Split(s) else Split(s)[1..])
            == WordStarts(s, afterSpace)
  {
    if s == [] {
    } else if s[0] == ' ' {
      FirstCharsOfSplit(s[1..], true);
      assert Split(s)[1..] == Split(s[1..]);
    } else {
      var rest := Split(s[1..]);
      FirstCharsOfSplit(s[1..], false);
      assert Split(s)[1..] == rest[1..];
    }
  }

  /** `s.slice(0, n)` for a non-negative `n`. */
  function Take(s: string, n: nat): (r: string)
    ensures |r| <= n && r <= s
    ensures |s| >= n ==> |r| == n
    ensures |s| <= n ==> r == s
  {
    if |s| <= n then s else s[..n]
  }
}
