/**
 * Salvaging the outline from the language model's reply (`extract_json_safely` in
 * main.py): every markdown fence is deleted, the rest is stripped, the widest span
 * from the first `{` to the last `}` is cut out, and only that span is given to the
 * JSON decoder. The decoder itself (`json.loads`) is the parameter `decode`.
 */
module JsonRepair {
  import opened Wrappers
  import opened PyText
  import opened JsonValue

  /** Why no outline could be read from a reply. */
  datatype RepairError =
    | EmptyResponse  // ValueError("Empty AI response")
    | NoJsonFound    // ValueError("No JSON found in AI response")
    | InvalidJson    // json.JSONDecodeError raised by the decoder

  /**
   * The message of the `ValueError` that reports `e`. A decoding error carries the
   * decoder's own message, which the decoder parameter does not model.
   */
  function RepairMessage(e: RepairError): string
    requires e != InvalidJson
  {
    if e == EmptyResponse then "Empty AI response" else "No JSON found in AI response"
  }

  // ---------------------------------------------------------------------------
  // Step 1: re.sub(r"```json|```", "", text, flags=re.IGNORECASE)
  // ---------------------------------------------------------------------------

  /** Three backticks start at index `i` of `s`. */
  predicate FenceAt(s: string, i: int) {
    0 <= i && i + 3 <= |s| && s[i] == '`' && s[i + 1] == '`' && s[i + 2] == '`'
  }

  ghost predicate ContainsFence(s: string) {
    exists i :: FenceAt(s, i)
  }

  /**
   * The four characters at `i` match `json` under `re.IGNORECASE`. Python's
   * case-insensitive matching of `s` also accepts U+017F (LATIN SMALL LETTER LONG S).
   */
  predicate JsonTagAt(s: string, i: int) {
    && 0 <= i && i + 4 <= |s|
    && (s[i] == 'j' || s[i] == 'J')
    && (s[i + 1] == 's' || s[i + 1] == 'S' || s[i + 1] == '\U{17F}')
    && (s[i + 2] == 'o' || s[i + 2] == 'O')
    && (s[i + 3] == 'n' || s[i + 3] == 'N')
  }

  /** The first alternative of the pattern, "```json" in any letter case, matches at the start. */
  predicate StartsWithJsonFence(s: string) {
    FenceAt(s, 0) && JsonTagAt(s, 3)
  }

  /**
   * The substitution: scanning left to right, a match of "```json" (tried first) or of
   * "```" is deleted and the scan resumes after it; any other character is kept.
   */
  function RemoveFences(s: string): (r: string)
    ensures |r| <= |s|
    decreases |s|
  {
    if s == [] then []
    else if StartsWithJsonFence(s) then RemoveFences(s[7..])
    else if FenceAt(s, 0) then RemoveFences(s[3..])
    else [s[0]] + RemoveFences(s[1..])
  }

  /** A character that does not start a fence is kept. */
  lemma RemoveFencesKeepsHead(t: string)
    requires |t| > 0 && !FenceAt(t, 0)
    ensures RemoveFences(t) == [t[0]] + RemoveFences(t[1..])
  {
  }

  /** A string that does not start with a fence does not start with one after the substitution. */
  lemma NoFenceAtHead(s: string)
    requires s != [] && !FenceAt(s, 0)
    ensures !FenceAt(RemoveFences(s), 0)
  {
    var t := s[1..];
    RemoveFencesKeepsHead(s);
    if s[0] == '`' && t != [] && t[0] == '`' {
      RemoveFencesKeepsHead(t);
      if |t| >= 2 {
        assert t[1] == s[2];
        RemoveFencesKeepsHead(t[1..]);
        assert RemoveFences(s)[2] == t[1];
      }
    } else if s[0] == '`' && t != [] {
      RemoveFencesKeepsHead(t);
      assert RemoveFences(s)[1] == t[0];
    }
  }

  /** After the substitution no three backticks are left anywhere, in particular no "```json". */
  lemma {:induction false} RemoveFencesLeavesNoFence(s: string)
    ensures !ContainsFence(RemoveFences(s))
    decreases |s|
  {
    if s == [] {
    } else if StartsWithJsonFence(s) {
      RemoveFencesLeavesNoFence(s[7..]);
    } else if FenceAt(s, 0) {
      RemoveFencesLeavesNoFence(s[3..]);
    } else {
      var tail := RemoveFences(s[1..]);
      var r := RemoveFences(s);
      assert r == [s[0]] + tail;
      RemoveFencesLeavesNoFence(s[1..]);
      NoFenceAtHead(s);
      forall i | 0 < i ensures FenceAt(r, i) == FenceAt(tail, i - 1) {
      }
    }
  }

  /** Text without three backticks in a row passes the substitution unchanged. */
  lemma {:induction false} NoFenceUnchanged(s: string)
    requires !ContainsFence(s)
    ensures RemoveFences(s) == s
    decreases |s|
  {
    if s != [] {
      assert !FenceAt(s, 0);
      assert !ContainsFence(s[1..]) by {
        forall i | 0 <= i ensures FenceAt(s[1..], i) == FenceAt(s, i + 1) {
        }
      }
      NoFenceUnchanged(s[1..]);
    }
  }

  /** Deleting the fences a second time changes nothing. */
  lemma RemoveFencesIdempotent(s: string)
    ensures RemoveFences(RemoveFences(s)) == RemoveFences(s)
  {
    RemoveFencesLeavesNoFence(s);
    NoFenceUnchanged(RemoveFences(s));
  }

  /** Text with no backtick passes the substitution unchanged, whatever follows it. */
  lemma {:induction false} RemoveFencesAfterPlain(a: string, b: string)
    requires Lacks(a, '`')
    ensures RemoveFences(a + b) == a + RemoveFences(b)
    decreases |a|
  {
    if a != [] {
      var s := a + b;
      assert s[0] == a[0];
      RemoveFencesKeepsHead(s);
      assert s[1..] == a[1..] + b;
      assert Lacks(a[1..], '`');
      RemoveFencesAfterPlain(a[1..], b);
      assert a + RemoveFences(b) == [a[0]] + (a[1..] + RemoveFences(b));
    } else {
      assert a + b == b;
    }
  }

  // ---------------------------------------------------------------------------
  // Step 2: re.search(r"\{[\s\S]*\}", text)
  // ---------------------------------------------------------------------------

  /** An opening brace at `i` with a closing brace later at `j`: a possible match. */
  predicate BracePair(s: string, i: int, j: int) {
    0 <= i < j < |s| && s[i] == '{' && s[j] == '}'
  }

  ghost predicate HasBracePair(s: string) {
    exists i, j :: BracePair(s, i, j)
  }

  /**
   * The span `s[i..j+1]` is the regular expression's match: the leftmost possible start
   * and, from it, the longest possible end (the quantifier is greedy).
   */
  ghost predicate GreedyMatch(s: string, i: int, j: int) {
    && BracePair(s, i, j)
    && forall i', j' :: BracePair(s, i', j') ==> i <= i' && j' <= j
  }

  /** The index of the first `c` in `s`. */
  function FirstIndex(s: string, c: char): (r: Option<nat>)
    ensures r.None? <==> Lacks(s, c)
    ensures r.Some? ==> r.value < |s| && s[r.value] == c && forall k :: 0 <= k < r.value ==> s[k] != c
  {
    if s == [] then None
    else if s[0] == c then Some(0)
    else match FirstIndex(s[1..], c)
      case None => None
      case Some(k) => Some(k + 1)
  }

  /** The index of the last `c` in `s`. */
  function LastIndex(s: string, c: char): (r: Option<nat>)
    ensures r.None? <==> Lacks(s, c)
    ensures r.Some? ==> r.value < |s| && s[r.value] == c && forall k :: r.value < k < |s| ==> s[k] != c
  {
    if s == [] then None
    else if s[|s| - 1] == c then Some(|s| - 1)
    else LastIndex(s[..|s| - 1], c)
  }

  /** `match.group()`, or `None` when the search finds nothing. */
  function BraceSpan(s: string): (r: Option<string>)
    ensures r.None? <==> !HasBracePair(s)
    ensures r.Some? ==> exists i, j :: GreedyMatch(s, i, j) && r.value == s[i..j + 1]
  {
    match FirstIndex(s, '{')
    case None => None
    case Some(i) =>
      match LastIndex(s, '}')
      case None => None
      case Some(j) =>
        if i < j then
          assert GreedyMatch(s, i, j);
          Some(s[i..j + 1])
        else
          None
  }

  /**
   * One object surrounded by prose with no `{` before it and no `}` after it is exactly
   * what the search cuts out, whatever braces the object holds inside.
   */
  lemma BraceSpanOfEmbedded(pre: string, obj: string, post: string)
    requires Lacks(pre, '{') && Lacks(post, '}')
    requires |obj| >= 2 && obj[0] == '{' && obj[|obj| - 1] == '}'
    ensures BraceSpan(pre + obj + post) == Some(obj)
  {
    var s := pre + obj + post;
    var a, b := |pre|, |pre| + |obj| - 1;
    assert s[a] == '{' && s[b] == '}';
    assert BracePair(s, a, b);
    assert forall k :: 0 <= k < a ==> s[k] != '{' by {
      forall k | 0 <= k < a ensures s[k] != '{' { assert s[k] == pre[k]; }
    }
    assert forall k :: b < k < |s| ==> s[k] != '}' by {
      forall k | b < k < |s| ensures s[k] != '}' { assert s[k] == post[k - b - 1]; }
    }
    var r := BraceSpan(s);
    assert r.Some?;
    var i, j :| GreedyMatch(s, i, j) && r.value == s[i..j + 1];
    assert i == a && j == b;
    assert s[a..b + 1] == obj;
  }

  /**
   * The greedy span is fragile: two objects separated by prose come out as one span that
   * runs from the first object's `{` to the second object's `}`.
   */
  lemma GreedySpanJoinsObjects(first: string, middle: string, second: string)
    requires |first| >= 2 && first[0] == '{' && first[|first| - 1] == '}'
    requires |second| >= 2 && second[0] == '{' && second[|second| - 1] == '}'
    ensures BraceSpan(first + middle + second) == Some(first + middle + second)
  {
    var whole := first + middle + second;
    assert whole[0] == '{' && whole[|whole| - 1] == '}';
    assert [] + whole + [] == whole;
    BraceSpanOfEmbedded([], whole, []);
  }

  /** Characters before index `k` that are not braces take no part in a brace pair. */
  lemma DropNonBraces(s: string, k: nat)
    requires k <= |s| && forall i :: 0 <= i < k ==> s[i] != '{' && s[i] != '}'
    ensures HasBracePair(s) <==> HasBracePair(s[k..])
    ensures Lacks(s, '}') <==> Lacks(s[k..], '}')
  {
    if HasBracePair(s) {
      var i, j :| BracePair(s, i, j);
      assert BracePair(s[k..], i - k, j - k);
    }
    if HasBracePair(s[k..]) {
      var i, j :| BracePair(s[k..], i, j);
      assert BracePair(s, i + k, j + k);
    }
    assert forall i :: k <= i < |s| ==> s[i] == s[k..][i - k];
  }

  /** A pair in `[c] + t` opens at `c` and closes in `t`, or lies inside `t`. */
  lemma ConsPair(c: char, t: string)
    ensures HasBracePair([c] + t) <==> (c == '{' && !Lacks(t, '}')) || HasBracePair(t)
    ensures Lacks([c] + t, '}') <==> c != '}' && Lacks(t, '}')
  {
    var s := [c] + t;
    if HasBracePair(s) {
      var i, j :| BracePair(s, i, j);
      if i == 0 {
        assert t[j - 1] == '}';
      } else {
        assert BracePair(t, i - 1, j - 1);
      }
    }
    if c == '{' && !Lacks(t, '}') {
      var k :| 0 <= k < |t| && t[k] == '}';
      assert BracePair(s, 0, k + 1);
    }
    if HasBracePair(t) {
      var i, j :| BracePair(t, i, j);
      assert BracePair(s, i + 1, j + 1);
    }
    assert s[0] == c;
    assert forall k :: 0 <= k < |t| ==> s[k + 1] == t[k];
    assert forall k :: 0 < k < |s| ==> s[k] == t[k - 1];
  }

  /** The substitution deletes only backticks and the letters of "json", never a brace. */
  lemma {:induction false} RemoveFencesKeepsBraces(s: string)
    ensures HasBracePair(RemoveFences(s)) <==> HasBracePair(s)
    ensures Lacks(RemoveFences(s), '}') <==> Lacks(s, '}')
    decreases |s|
  {
    if s == [] {
    } else if StartsWithJsonFence(s) {
      DropNonBraces(s, 7);
      RemoveFencesKeepsBraces(s[7..]);
    } else if FenceAt(s, 0) {
      DropNonBraces(s, 3);
      RemoveFencesKeepsBraces(s[3..]);
    } else {
      RemoveFencesKeepsBraces(s[1..]);
      ConsPair(s[0], RemoveFences(s[1..]));
      assert s == [s[0]] + s[1..];
      ConsPair(s[0], s[1..]);
    }
  }

  /** Stripping deletes only white space, never a brace. */
  lemma StripKeepsBraces(s: string)
    ensures HasBracePair(Strip(s)) <==> HasBracePair(s)
  {
    if AllSpace(s) {
      assert forall i :: 0 <= i < |s| ==> s[i] != '{';
    } else {
      var a, b := LeadingSpaces(s), TrailingSpaces(s);
      FramedByOwnSpaces(s);
      assert Strip(s) == s[a..|s| - b];
      SliceKeepsBraces(s, a, |s| - b);
    }
  }

  /** Cutting white space off both ends keeps exactly the brace pairs. */
  lemma SliceKeepsBraces(s: string, a: nat, e: nat)
    requires a <= e <= |s|
    requires forall k :: 0 <= k < a ==> IsSpace(s[k])
    requires forall k :: e <= k < |s| ==> IsSpace(s[k])
    ensures HasBracePair(s[a..e]) <==> HasBracePair(s)
  {
    var r := s[a..e];
    if HasBracePair(s) {
      var i, j :| BracePair(s, i, j);
      assert !IsSpace(s[i]) && !IsSpace(s[j]);
      assert BracePair(r, i - a, j - a);
    }
    if HasBracePair(r) {
      var i, j :| BracePair(r, i, j);
      assert BracePair(s, i + a, j + a);
    }
  }

  /** Cleaning a reply neither creates nor destroys a `{` with a `}` after it. */
  lemma CleanedKeepsBraces(text: string)
    ensures HasBracePair(Cleaned(text)) <==> HasBracePair(text)
  {
    RemoveFencesKeepsBraces(text);
    StripKeepsBraces(RemoveFences(text));
  }

  // ---------------------------------------------------------------------------
  // extract_json_safely
  // ---------------------------------------------------------------------------

  /** The reply with its fences deleted and its ends stripped: the text that is searched. */
  function Cleaned(text: string): (r: string)
    ensures !ContainsFence(r) && Stripped(r)
  {
    RemoveFencesLeavesNoFence(text);
    StripKeepsNoFence(RemoveFences(text));
    Strip(RemoveFences(text))
  }

  /** Stripping cuts a piece out of a string, so it cannot create a fence. */
  lemma StripKeepsNoFence(s: string)
    requires !ContainsFence(s)
    ensures !ContainsFence(Strip(s))
  {
    var r := Strip(s);
    var k := LeadingSpaces(s);
    StripChars(s);
    forall i | 0 <= i && i + 3 <= |r| ensures FenceAt(r, i) == FenceAt(s, k + i) {
      assert r[i] == s[k + i] && r[i + 1] == s[k + i + 1] && r[i + 2] == s[k + i + 2];
    }
  }

  /**
   * `extract_json_safely(text)`: the outline decoded from the reply, or why there is none.
   * An empty reply is refused before any other step; a reply with no `{` before a `}`
   * is refused before the decoder is called; otherwise the decoder sees exactly the
   * greedy span of the cleaned reply.
   */
  function ExtractJsonSafely(text: string, decode: string -> Option<Json>): (r: Result<Json, RepairError>)
    ensures r == Failure(EmptyResponse) <==> text == []
    ensures r == Failure(NoJsonFound) <==> text != [] && !HasBracePair(Cleaned(text))
    ensures r == Failure(NoJsonFound) <==> text != [] && !HasBracePair(text)
    ensures r.Success? ==>
              exists i, j :: GreedyMatch(Cleaned(text), i, j) && decode(Cleaned(text)[i..j + 1]) == Some(r.value)
    ensures r == Failure(InvalidJson) ==>
              exists i, j :: GreedyMatch(Cleaned(text), i, j) && decode(Cleaned(text)[i..j + 1]).None?
  {
    CleanedKeepsBraces(text);
    if text == [] then Failure(EmptyResponse)
    else
      match BraceSpan(Cleaned(text))
      case None => Failure(NoJsonFound)
      case Some(span) =>
        match decode(span)
        case None => Failure(InvalidJson)
        case Some(v) => Success(v)
  }

  /** Two non-empty replies that clean to the same text are repaired alike. */
  lemma SameCleanedSameRepair(t1: string, t2: string, decode: string -> Option<Json>)
    requires t1 != [] && t2 != [] && Cleaned(t1) == Cleaned(t2)
    ensures ExtractJsonSafely(t1, decode) == ExtractJsonSafely(t2, decode)
  {
  }

  /**
   * A newline cannot be part of a fence, so the scan treats the text before a newline and
   * the text from it onwards separately.
   */
  lemma {:induction false} SplitAtNewline(body: string, rest: string)
    ensures RemoveFences(body + "\n" + rest) == RemoveFences(body) + RemoveFences("\n" + rest)
    decreases |body|
  {
    var s := body + "\n" + rest;
    assert s[|body|] == '\n';
    if body == [] {
      assert s == "\n" + rest;
    } else if StartsWithJsonFence(s) {
      assert StartsWithJsonFence(body);
      assert s[7..] == body[7..] + "\n" + rest;
      SplitAtNewline(body[7..], rest);
    } else if FenceAt(s, 0) {
      assert FenceAt(body, 0) && !StartsWithJsonFence(body);
      assert s[3..] == body[3..] + "\n" + rest;
      SplitAtNewline(body[3..], rest);
    } else {
      assert !FenceAt(body, 0);
      assert s[0] == body[0] && s[1..] == body[1..] + "\n" + rest;
      SplitAtNewline(body[1..], rest);
      assert RemoveFences(body) == [body[0]] + RemoveFences(body[1..]);
    }
  }

  /** Deleting the fences around a body leaves the body's own substitution with a newline on each side. */
  lemma FencedRemovesToPadded(body: string)
    ensures RemoveFences("```json\n" + body + "\n```") == "\n" + RemoveFences(body) + "\n"
  {
    var rest := body + "\n" + "```";
    assert "```json\n" + body + "\n```" == "```json" + ("\n" + rest);
    JsonFenceDropped("\n" + rest);
    NewlineKept(rest);
    SplitAtNewline(body, "```");
    NewlineKept("```");
    assert RemoveFences("```") == [] by {
      assert FenceAt("```", 0);
      assert "```"[3..] == [];
    }
  }

  /** An opening "```json" is deleted. */
  lemma JsonFenceDropped(t: string)
    ensures RemoveFences("```json" + t) == RemoveFences(t)
  {
    var s := "```json" + t;
    assert StartsWithJsonFence(s);
    assert s[7..] == t;
  }

  /** A leading newline is kept. */
  lemma NewlineKept(t: string)
    ensures RemoveFences("\n" + t) == "\n" + RemoveFences(t)
  {
    var s := "\n" + t;
    RemoveFencesKeepsHead(s);
    assert s[1..] == t;
  }

  lemma LacksBacktickHasNoFence(s: string)
    requires Lacks(s, '`')
    ensures !ContainsFence(s)
  {
  }

  /**
   * A reply wrapped in a "```json" fence is repaired exactly like the bare reply: both
   * decode the same span, or both fail the same way.
   */
  lemma FencedReplyRepairsLikeBare(body: string, decode: string -> Option<Json>)
    requires body != []
    ensures ExtractJsonSafely("```json\n" + body + "\n```", decode) == ExtractJsonSafely(body, decode)
  {
    var fenced := "```json\n" + body + "\n```";
    FencedRemovesToPadded(body);
    assert "\n" + RemoveFences(body) + "\n" == ['\n'] + RemoveFences(body) + ['\n'];
    StripPadded("\n", RemoveFences(body), "\n");
    assert Cleaned(fenced) == Cleaned(body);
    assert fenced != [] by { assert |fenced| > 0; }
    SameCleanedSameRepair(fenced, body, decode);
  }

  /** A backtick-free reply with an object inside cleans to that object with the prose trimmed. */
  lemma CleanedOfEmbedded(pre: string, obj: string, post: string)
    requires Lacks(pre, '`') && Lacks(obj, '`') && Lacks(post, '`')
    requires |obj| >= 2 && obj[0] == '{' && obj[|obj| - 1] == '}'
    ensures Cleaned(pre + obj + post) == TrimStart(pre) + obj + TrimEnd(post)
  {
    var text := pre + obj + post;
    assert Lacks(text, '`') by {
      forall k | 0 <= k < |text| ensures text[k] != '`' {
        if k < |pre| {
          assert text[k] == pre[k];
        } else if k < |pre| + |obj| {
          assert text[k] == obj[k - |pre|];
        } else {
          assert text[k] == post[k - |pre| - |obj|];
        }
      }
    }
    LacksBacktickHasNoFence(text);
    NoFenceUnchanged(text);
    assert Stripped(obj);
    StripAround(pre, obj, post);
  }

  /** Trimming white space never adds a character. */
  lemma TrimmedLacks(s: string, c: char)
    requires Lacks(s, c)
    ensures Lacks(TrimStart(s), c) && Lacks(TrimEnd(s), c)
  {
    var lead := TrimStart(s);
    forall k | 0 <= k < |lead| ensures lead[k] != c {
      assert lead[k] == s[LeadingSpaces(s) + k];
    }
  }

  /**
   * A reply made of one candidate object with prose around it that holds no `{` before
   * and no `}` after, and no backticks, hands exactly that object to the decoder.
   */
  lemma EmbeddedObjectIsDecoded(pre: string, obj: string, post: string, decode: string -> Option<Json>)
    requires Lacks(pre, '{') && Lacks(post, '}')
    requires Lacks(pre, '`') && Lacks(obj, '`') && Lacks(post, '`')
    requires |obj| >= 2 && obj[0] == '{' && obj[|obj| - 1] == '}'
    ensures ExtractJsonSafely(pre + obj + post, decode)
         == match decode(obj) case Some(v) => Success(v) case None => Failure(InvalidJson)
  {
    var text := pre + obj + post;
    CleanedOfEmbedded(pre, obj, post);
    TrimmedLacks(pre, '{');
    TrimmedLacks(post, '}');
    BraceSpanOfEmbedded(TrimStart(pre), obj, TrimEnd(post));
    assert BraceSpan(Cleaned(text)) == Some(obj);
    assert text != [] by { assert |text| >= 2; }
  }
}
