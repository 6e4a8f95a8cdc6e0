/** Space identifier resolution of internal/spaces/resolver.go: the decision
    of `ResolveSpace` once the list of spaces has been fetched, and the list
    of shell completions built by `GetSpaceCompletionFunc`.

    The fetched list is an input sequence. `Resolve` specifies the decision
    as a function; `ResolveSpace` is the source's three loops and is proved
    to return `Resolve`. */
module Spaces {
  import opened Text

  /** The two fields of a space the resolver looks at. */
  datatype Space = Space(id: string, name: string)

  /** The outcome of ResolveSpace: an ID with a nil error (which includes the
      pass-through of the raw input), or the ambiguity error with the
      matched spaces and the error's message. */
  datatype Resolution = Resolved(id: string) | Ambiguous(matches: seq<Space>, message: string)

  datatype Option<T> = None | Some(value: T)

  function Min(a: int, b: int): int
  {
    if a < b then a else b
  }

  /** Some space's ID equals the input byte for byte. */
  predicate HasId(spaces: seq<Space>, input: string)
  {
    exists k :: 0 <= k < |spaces| && spaces[k].id == input
  }

  /** The index of the first space whose name case-insensitively equals the input. */
  function FirstNameMatch(spaces: seq<Space>, input: string): (r: Option<nat>)
    ensures r.Some? ==> r.value < |spaces| && EqualFold(spaces[r.value].name, input)
                        && forall k :: 0 <= k < r.value ==> !EqualFold(spaces[k].name, input)
    ensures r.None? <==> forall k :: 0 <= k < |spaces| ==> !EqualFold(spaces[k].name, input)
  {
    if spaces == [] then None
    else if EqualFold(spaces[0].name, input) then Some(0)
    else
      match FirstNameMatch(spaces[1..], input)
      case None => None
      case Some(j) => Some(j + 1)
  }

  /** The space's lower-cased name contains the lower-cased input. */
  predicate NameContains(space: Space, input: string)
  {
    Contains(Lower(space.name), Lower(input))
  }

  /** The spaces whose names contain the input, in list order. */
  function PartialMatches(spaces: seq<Space>, input: string): seq<Space>
  {
    if spaces == [] then []
    else
      var last := spaces[|spaces| - 1];
      PartialMatches(spaces[..|spaces| - 1], input) + (if NameContains(last, input) then [last] else [])
  }

  /** The text of the ErrSpaceNotFound error value. */
  const ErrSpaceNotFound: string := "space not found"

  /** The start of the ambiguity error: ErrSpaceNotFound's text and the input. */
  function AmbiguityLead(input: string): string
  {
    ErrSpaceNotFound + ": multiple spaces matched '" + input + "'"
  }

  /** The header of the ambiguity error. */
  function AmbiguityHeader(input: string): string
  {
    AmbiguityLead(input) + ", please use space ID or a more specific name. Matched spaces:"
  }

  /** One listed match. */
  function Entry(space: Space): string
  {
    "\n  - '" + space.name + "' (ID: " + space.id + ")"
  }

  function Entries(spaces: seq<Space>): string
  {
    if spaces == [] then "" else Entries(spaces[..|spaces| - 1]) + Entry(spaces[|spaces| - 1])
  }

  lemma EntriesSnoc(spaces: seq<Space>, i: nat)
    requires i < |spaces|
    ensures Entries(spaces[..i + 1]) == Entries(spaces[..i]) + Entry(spaces[i])
  {
    assert spaces[..i + 1][..i] == spaces[..i];
  }

  /** At most this many matches are listed in the ambiguity error. */
  const DisplayCap: nat := 5

  /** The ambiguity error's message: the header, the first five matches,
      and a count of the rest when there are more. */
  function AmbiguityMessage(input: string, matches: seq<Space>): string
  {
    AmbiguityHeader(input) + Entries(matches[..Min(|matches|, DisplayCap)])
      + (if |matches| > DisplayCap then "\n  ... and " + NatToString(|matches| - DisplayCap) + " more" else "")
  }

  /** The decision of ResolveSpace, in priority order: exact ID, first
      case-insensitive name, unique partial match or ambiguity, and finally
      the raw input passed through. */
  function Resolve(spaces: seq<Space>, input: string): Resolution
  {
    if HasId(spaces, input) then Resolved(input)
    else
      match FirstNameMatch(spaces, input)
      case Some(j) => Resolved(spaces[j].id)
      case None =>
        var matches := PartialMatches(spaces, input);
        if |matches| == 1 then Resolved(matches[0].id)
        else if |matches| > 1 then Ambiguous(matches, AmbiguityMessage(input, matches))
        else Resolved(input)
  }

  /** The first loop of ResolveSpace: is the input some space's ID? */
  method FindId(spaces: seq<Space>, spaceIdOrName: string) returns (found: bool)
    ensures found == HasId(spaces, spaceIdOrName)
  {
    for i := 0 to |spaces|
      invariant forall k :: 0 <= k < i ==> spaces[k].id != spaceIdOrName
    {
      if spaces[i].id == spaceIdOrName {
        return true;
      }
    }
    return false;
  }

  /** The second loop of ResolveSpace: the first case-insensitive name match. */
  method FindName(spaces: seq<Space>, spaceIdOrName: string) returns (index: Option<nat>)
    ensures index == FirstNameMatch(spaces, spaceIdOrName)
  {
    for i := 0 to |spaces|
      invariant forall k :: 0 <= k < i ==> !EqualFold(spaces[k].name, spaceIdOrName)
    {
      if EqualFold(spaces[i].name, spaceIdOrName) {
        return Some(i);
      }
    }
    return None;
  }

  /** The third loop of ResolveSpace: collect the partial matches in order. */
  method CollectMatches(spaces: seq<Space>, spaceIdOrName: string) returns (matched: seq<Space>)
    ensures matched == PartialMatches(spaces, spaceIdOrName)
  {
    matched := [];
    for i := 0 to |spaces|
      invariant matched == PartialMatches(spaces[..i], spaceIdOrName)
    {
      assert spaces[..i + 1][..i] == spaces[..i];
      if Contains(Lower(spaces[i].name), Lower(spaceIdOrName)) {
        matched := matched + [spaces[i]];
      }
    }
    assert spaces[..|spaces|] == spaces;
  }

  /** The message loop of ResolveSpace. */
  method BuildMessage(spaceIdOrName: string, matched: seq<Space>) returns (msg: string)
    ensures msg == AmbiguityMessage(spaceIdOrName, matched)
  {
    msg := ErrSpaceNotFound + ": multiple spaces matched '" + spaceIdOrName + "'"
           + ", please use space ID or a more specific name. Matched spaces:";
    assert matched[..Min(0, DisplayCap)] == [];
    for i := 0 to |matched|
      invariant msg == AmbiguityHeader(spaceIdOrName) + Entries(matched[..Min(i, DisplayCap)])
    {
      if i < 5 {
        EntriesSnoc(matched, i);
        msg := msg + ("\n  - '" + matched[i].name + "' (ID: " + matched[i].id + ")");
      }
    }
    if |matched| > 5 {
      msg := msg + "\n  ... and " + NatToString(|matched| - 5) + " more";
    }
  }

  /** ResolveSpace after the list call: the four steps with their early returns. */
  method ResolveSpace(spaces: seq<Space>, spaceIdOrName: string) returns (r: Resolution)
    ensures r == Resolve(spaces, spaceIdOrName)
  {
    var idFound := FindId(spaces, spaceIdOrName);
    if idFound {
      return Resolved(spaceIdOrName);
    }
    var nameIndex := FindName(spaces, spaceIdOrName);
    if nameIndex.Some? {
      return Resolved(spaces[nameIndex.value].id);
    }
    var matched := CollectMatches(spaces, spaceIdOrName);
    if |matched| == 1 {
      return Resolved(matched[0].id);
    }
    if |matched| > 1 {
      var msg := BuildMessage(spaceIdOrName, matched);
      return Ambiguous(matched, msg);
    }
    return Resolved(spaceIdOrName);
  }

  // ---------------------------------------------------------------------
  // Properties of the resolution
  // ---------------------------------------------------------------------

  /** The partial matches are spaces of the list whose names contain the
      input, and every such space is among them. */
  lemma {:induction false} PartialMatchesMembers(spaces: seq<Space>, input: string)
    ensures |PartialMatches(spaces, input)| <= |spaces|
    ensures forall m :: m in PartialMatches(spaces, input) ==> m in spaces && NameContains(m, input)
    ensures forall k :: 0 <= k < |spaces| && NameContains(spaces[k], input) ==> spaces[k] in PartialMatches(spaces, input)
    decreases |spaces|
  {
    if spaces != [] {
      var init := spaces[..|spaces| - 1];
      PartialMatchesMembers(init, input);
      assert forall k :: 0 <= k < |init| ==> init[k] == spaces[k];
      assert forall m :: m in init ==> m in spaces;
    }
  }

  /** Order is kept: the matches among the first `i` spaces are a prefix of
      all the matches. */
  lemma {:induction false} PartialMatchesPrefix(spaces: seq<Space>, input: string, i: nat)
    requires i <= |spaces|
    ensures PartialMatches(spaces[..i], input) <= PartialMatches(spaces, input)
    decreases |spaces| - i
  {
    if i < |spaces| {
      PartialMatchesPrefix(spaces, input, i + 1);
      var pre := spaces[..i + 1];
      assert pre[..|pre| - 1] == spaces[..i];
    } else {
      assert spaces[..i] == spaces;
    }
  }

  /** No space's name contains the input: there are no partial matches. */
  lemma {:induction false} PartialMatchesNone(spaces: seq<Space>, input: string)
    requires forall k :: 0 <= k < |spaces| ==> !NameContains(spaces[k], input)
    ensures PartialMatches(spaces, input) == []
    decreases |spaces|
  {
    if spaces != [] {
      PartialMatchesNone(spaces[..|spaces| - 1], input);
    }
  }

  /** Exactly one space's name contains the input: it is the only match. */
  lemma {:induction false} PartialMatchesOnly(spaces: seq<Space>, input: string, k: nat)
    requires k < |spaces| && NameContains(spaces[k], input)
    requires forall j :: 0 <= j < |spaces| && j != k ==> !NameContains(spaces[j], input)
    ensures PartialMatches(spaces, input) == [spaces[k]]
    decreases |spaces|
  {
    var init := spaces[..|spaces| - 1];
    if k == |spaces| - 1 {
      PartialMatchesNone(init, input);
    } else {
      PartialMatchesOnly(init, input, k);
    }
  }

  /** Two spaces whose names contain the input give at least two matches. */
  lemma PartialMatchesTwo(spaces: seq<Space>, input: string, j: nat, k: nat)
    requires j < k < |spaces| && NameContains(spaces[j], input) && NameContains(spaces[k], input)
    ensures |PartialMatches(spaces, input)| >= 2
  {
    var pre := spaces[..k];
    PartialMatchesMembers(pre, input);
    assert spaces[j] == pre[j];
    assert |PartialMatches(pre, input)| >= 1;
    var pre1 := spaces[..k + 1];
    assert pre1[..|pre1| - 1] == pre && pre1[|pre1| - 1] == spaces[k];
    PartialMatchesPrefix(spaces, input, k + 1);
  }

  /** An exact ID match wins, whatever the names say. */
  lemma ResolveExactId(spaces: seq<Space>, input: string, k: nat)
    requires k < |spaces| && spaces[k].id == input
    ensures Resolve(spaces, input) == Resolved(spaces[k].id)
  {
  }

  /** Without an ID match, the first space in list order whose name equals
      the input case-insensitively wins, even when later names match too. */
  lemma ResolveFirstName(spaces: seq<Space>, input: string, j: nat)
    requires forall k :: 0 <= k < |spaces| ==> spaces[k].id != input
    requires j < |spaces| && EqualFold(spaces[j].name, input)
    requires forall k :: 0 <= k < j ==> !EqualFold(spaces[k].name, input)
    ensures Resolve(spaces, input) == Resolved(spaces[j].id)
  {
    var r := FirstNameMatch(spaces, input);
    assert r.Some?;
    assert r.value == j;
  }

  /** Without an ID or a name match, a single space whose name contains the
      input resolves to that space's ID. */
  lemma ResolveUniquePartial(spaces: seq<Space>, input: string, k: nat)
    requires forall i :: 0 <= i < |spaces| ==> spaces[i].id != input && !EqualFold(spaces[i].name, input)
    requires k < |spaces| && NameContains(spaces[k], input)
    requires forall j :: 0 <= j < |spaces| && j != k ==> !NameContains(spaces[j], input)
    ensures Resolve(spaces, input) == Resolved(spaces[k].id)
  {
    PartialMatchesOnly(spaces, input, k);
  }

  /** Without an ID or a name match, two spaces whose names contain the
      input make the result the ambiguity error, listing the partial matches. */
  lemma ResolveAmbiguous(spaces: seq<Space>, input: string, j: nat, k: nat)
    requires forall i :: 0 <= i < |spaces| ==> spaces[i].id != input && !EqualFold(spaces[i].name, input)
    requires j < k < |spaces| && NameContains(spaces[j], input) && NameContains(spaces[k], input)
    ensures Resolve(spaces, input)
         == Ambiguous(PartialMatches(spaces, input), AmbiguityMessage(input, PartialMatches(spaces, input)))
  {
    PartialMatchesTwo(spaces, input, j, k);
  }

  /** When nothing matches, the raw input is passed through without error. */
  lemma ResolvePassThrough(spaces: seq<Space>, input: string)
    requires forall i :: 0 <= i < |spaces| ==> spaces[i].id != input && !NameContains(spaces[i], input)
    ensures Resolve(spaces, input) == Resolved(input)
  {
    PartialMatchesNone(spaces, input);
    forall i | 0 <= i < |spaces| ensures !EqualFold(spaces[i].name, input) {
      FoldImpliesContains(spaces[i], input);
    }
  }

  /** A name equal to the input up to case also contains it. */
  lemma FoldImpliesContains(space: Space, input: string)
    ensures EqualFold(space.name, input) ==> NameContains(space, input)
  {
    if EqualFold(space.name, input) {
      assert OccursAt(Lower(space.name), Lower(input), 0);
    }
  }

  /** A successful resolution is the input itself or the ID of a listed space. */
  lemma ResolvedIsKnown(spaces: seq<Space>, input: string)
    ensures Resolve(spaces, input).Resolved? ==>
              Resolve(spaces, input).id == input
              || exists k :: 0 <= k < |spaces| && spaces[k].id == Resolve(spaces, input).id
  {
    PartialMatchesMembers(spaces, input);
    var matches := PartialMatches(spaces, input);
    if !HasId(spaces, input) && FirstNameMatch(spaces, input).None? && |matches| == 1 {
      assert matches[0] in matches;
    }
  }

  /** The ambiguity error lists at least two spaces, all of them partial
      matches, and its message begins by naming the input. */
  lemma AmbiguousShape(spaces: seq<Space>, input: string)
    ensures Resolve(spaces, input).Ambiguous? ==>
              var a := Resolve(spaces, input);
              && a.matches == PartialMatches(spaces, input)
              && |a.matches| >= 2
              && (forall m :: m in a.matches ==> m in spaces && NameContains(m, input))
              && a.message[..|AmbiguityLead(input)|] == AmbiguityLead(input)
  {
    PartialMatchesMembers(spaces, input);
  }

  lemma {:induction false} EntriesEnd(spaces: seq<Space>)
    requires spaces != []
    ensures |Entries(spaces)| > 0 && Entries(spaces)[|Entries(spaces)| - 1] == ')'
  {
  }

  /** `suffix` is the last part of `s`. */
  predicate EndsWith(s: string, suffix: string)
  {
    |suffix| <= |s| && s[|s| - |suffix|..] == suffix
  }

  /** The line reporting how many matches were not listed. */
  function MoreLine(digits: string): string
  {
    "\n  ... and " + digits + " more"
  }

  /** The message ends with the "... and N more" line, N being the number of
      unlisted matches, exactly when more than five spaces matched; otherwise
      it ends with the entry of the last match. */
  lemma MessageSuffix(input: string, matches: seq<Space>)
    requires |matches| >= 1
    ensures var msg := AmbiguityMessage(input, matches);
            |msg| > 0 && (msg[|msg| - 1] == 'e' <==> |matches| > DisplayCap)
    ensures |matches| > DisplayCap ==>
              EndsWith(AmbiguityMessage(input, matches), MoreLine(NatToString(|matches| - DisplayCap)))
    ensures |matches| <= DisplayCap ==>
              EndsWith(AmbiguityMessage(input, matches), Entry(matches[|matches| - 1]))
  {
    var listed := matches[..Min(|matches|, DisplayCap)];
    EntriesEnd(listed);
    var msg := AmbiguityMessage(input, matches);
    if |matches| <= DisplayCap {
      var front := AmbiguityHeader(input) + Entries(matches[..|matches| - 1]);
      EntriesSnoc(matches, |matches| - 1);
      assert matches[..|matches|] == matches;
      assert msg == front + Entry(matches[|matches| - 1]);
    } else {
      var front := AmbiguityHeader(input) + Entries(listed);
      assert msg == front + MoreLine(NatToString(|matches| - DisplayCap));
    }
  }

  /** The message is bounded: the spaces after the fifth contribute only
      their number. */
  lemma MessageShowsFirstFive(input: string, m1: seq<Space>, m2: seq<Space>)
    requires |m1| == |m2|
    requires m1[..Min(|m1|, DisplayCap)] == m2[..Min(|m2|, DisplayCap)]
    ensures AmbiguityMessage(input, m1) == AmbiguityMessage(input, m2)
  {
  }

  /** The message ends with a count line whose `digits` are decimal digits
      reading back as the number of the `matched` spaces beyond the fifth. */
  predicate ReportsMore(msg: string, digits: string, matched: nat)
  {
    && (forall k :: 0 <= k < |digits| ==> IsDigit(digits[k]))
    && ParseDigits(digits) + DisplayCap == matched
    && EndsWith(msg, MoreLine(digits))
  }

  /** With more than five matches, the message's last line carries a decimal
      number that reads back as the number of unlisted matches. */
  lemma MessageCount(input: string, matches: seq<Space>)
    requires |matches| > DisplayCap
    ensures exists digits :: ReportsMore(AmbiguityMessage(input, matches), digits, |matches|)
  {
    var digits := NatToString(|matches| - DisplayCap);
    ParseNatToString(|matches| - DisplayCap);
    MessageSuffix(input, matches);
    assert ReportsMore(AmbiguityMessage(input, matches), digits, |matches|);
  }

  /** The empty input is contained in every name: every space is a partial match. */
  lemma {:induction false} EmptyInputMatchesAll(spaces: seq<Space>)
    ensures PartialMatches(spaces, "") == spaces
    decreases |spaces|
  {
    if spaces != [] {
      EmptyInputMatchesAll(spaces[..|spaces| - 1]);
      ContainsEmpty(Lower(spaces[|spaces| - 1].name));
      assert Lower("") == "";
    }
  }

  /** With an empty input and no empty ID or name: an empty list passes ""
      through, a single space resolves to its ID, and several spaces are
      ambiguous. */
  lemma EmptyInputResolution(spaces: seq<Space>)
    requires forall k :: 0 <= k < |spaces| ==> spaces[k].id != "" && spaces[k].name != ""
    ensures spaces == [] ==> Resolve(spaces, "") == Resolved("")
    ensures |spaces| == 1 ==> Resolve(spaces, "") == Resolved(spaces[0].id)
    ensures |spaces| > 1 ==> Resolve(spaces, "") == Ambiguous(spaces, AmbiguityMessage("", spaces))
  {
    EmptyInputMatchesAll(spaces);
    assert !HasId(spaces, "");
    forall k | 0 <= k < |spaces| ensures !EqualFold(spaces[k].name, "") {
      assert |Lower(spaces[k].name)| > 0;
    }
    assert FirstNameMatch(spaces, "").None?;
  }

  // ---------------------------------------------------------------------
  // Shell completion
  // ---------------------------------------------------------------------

  /** The name holds a space, tab, carriage return or line feed. */
  predicate NeedsQuoting(name: string)
  {
    exists k :: 0 <= k < |name| && name[k] in " \t\n\r"
  }

  /** The entry offered for a space's name. `quote` stands for Go's `%q`. */
  function NameCompletion(space: Space, quote: string -> string): string
  {
    (if NeedsQuoting(space.name) then quote(space.name) else space.name) + "\t" + space.id
  }

  /** The completion list of GetSpaceCompletionFunc once the spaces are
      fetched: per space, its ID described by its name, then its name
      (quoted if it needs it) described by its ID. */
  method SpaceCompletions(spaces: seq<Space>, quote: string -> string) returns (completions: seq<string>)
    ensures |completions| == 2 * |spaces|
    ensures forall k :: 0 <= k < |spaces| ==> completions[2 * k] == spaces[k].id + "\t" + spaces[k].name
    ensures forall k :: 0 <= k < |spaces| ==> completions[2 * k + 1] == NameCompletion(spaces[k], quote)
  {
    completions := [];
    for i := 0 to |spaces|
      invariant |completions| == 2 * i
      invariant forall k :: 0 <= k < i ==> completions[2 * k] == spaces[k].id + "\t" + spaces[k].name
      invariant forall k :: 0 <= k < i ==> completions[2 * k + 1] == NameCompletion(spaces[k], quote)
    {
      var space := spaces[i];
      completions := completions + [space.id + "\t" + space.name];
      if !NeedsQuoting(space.name) {
        completions := completions + [space.name + "\t" + space.id];
      } else {
        var quotedName := quote(space.name);
        completions := completions + [quotedName + "\t" + space.id];
      }
    }
  }

  /** The text before the first tab of a completion entry and the text after
      it (the shell shows the part after the tab as the description). */
  function SplitAtTab(s: string): (string, string)
  {
    if s == [] then ([], [])
    else if s[0] == '\t' then ([], s[1..])
    else
      var (value, description) := SplitAtTab(s[1..]);
      ([s[0]] + value, description)
  }

  /** An ID entry splits back into the space's ID and name when the ID has
      no tab. */
  lemma {:induction false} IdCompletionSplits(id: string, name: string)
    requires forall k :: 0 <= k < |id| ==> id[k] != '\t'
    ensures SplitAtTab(id + "\t" + name) == (id, name)
    decreases |id|
  {
    if id == [] {
      assert id + "\t" + name == ['\t'] + name;
    } else {
      IdCompletionSplits(id[1..], name);
      assert (id + "\t" + name)[1..] == id[1..] + "\t" + name;
      assert [id[0]] + id[1..] == id;
    }
  }
}
