/**
 * The tag of a node in a generated config: its id, lower-cased, with every run of other
 * characters turned into one dash.
 */
module OutboundTag {
  import opened Text

  predicate IsTagChar(c: char) {
    'a' <= c <= 'z' || '0' <= c <= '9'
  }

  // ---------------------------------------------------------------- a reference: words

  /** The maximal runs of tag characters. */
  function Words(s: string): (ws: seq<string>)
    ensures s != "" && IsTagChar(s[0]) ==> ws != [] && ws[0] != ""
  {
    if s == "" then []
    else
      var rest := Words(s[1..]);
      if !IsTagChar(s[0]) then rest
      else if |s| > 1 && IsTagChar(s[1]) then [[s[0]] + rest[0]] + rest[1..]
      else [[s[0]]] + rest
  }

  function Joined(ws: seq<string>): string {
    if ws == [] then ""
    else if |ws| == 1 then ws[0]
    else ws[0] + "-" + Joined(ws[1..])
  }

  /** Runs of a-z and 0-9, joined by single dashes, with none at either end. */
  predicate Canonical(s: string) {
    && s != "" && s[0] != '-' && s[|s| - 1] != '-'
    && (forall i :: 0 <= i < |s| ==> IsTagChar(s[i]) || s[i] == '-')
    && (forall i :: 0 <= i < |s| - 1 ==> !(s[i] == '-' && s[i + 1] == '-'))
  }

  // ----------------------------------------------------------------- what the loop writes

  /** What the loop over the runes still writes, given its `prevDash` flag. */
  function Emitted(s: string, prevDash: bool): string {
    if s == "" then ""
    else if IsTagChar(s[0]) then [s[0]] + Emitted(s[1..], false)
    else if !prevDash then "-" + Emitted(s[1..], true)
    else Emitted(s[1..], true)
  }

  function TrimLeftDashes(s: string): string {
    if s != "" && s[0] == '-' then TrimLeftDashes(s[1..]) else s
  }

  function TrimRightDashes(s: string): string {
    if s != "" && s[|s| - 1] == '-' then TrimRightDashes(s[..|s| - 1]) else s
  }

  /** The value outboundTag appends: the written text, trimmed, or "node". */
  function Slug(source: string): string {
    var value := TrimRightDashes(TrimLeftDashes(Emitted(ToLower(source), false)));
    if value == "" then "node" else value
  }

  /** What one character adds. */
  function Piece(c: char, prevDash: bool): string {
    if IsTagChar(c) then [c] else if prevDash then "" else "-"
  }

  lemma EmittedOnward(text: string, s: string, prevDash: bool)
    requires s != ""
    ensures text + Emitted(s, prevDash) == (text + Piece(s[0], prevDash)) + Emitted(s[1..], !IsTagChar(s[0]))
  {
    assert Emitted(s, prevDash) == Piece(s[0], prevDash) + Emitted(s[1..], !IsTagChar(s[0]));
  }

  method BuildSlug(source: string) returns (value: string)
    ensures value == Slug(source)
  {
    var lower := ToLower(source);
    var text, prevDash := "", false;
    for i := 0 to |lower|
      invariant text + Emitted(lower[i..], prevDash) == Emitted(lower, false)
    {
      EmittedOnward(text, lower[i..], prevDash);
      assert lower[i..][0] == lower[i] && lower[i..][1..] == lower[i + 1..];
      assert text + "" == text;
      if IsTagChar(lower[i]) {
        text := text + [lower[i]];
        prevDash := false;
      } else if !prevDash {
        text := text + "-";
        prevDash := true;
      }
    }
    assert lower[|lower|..] == "" && text + "" == text;
    value := TrimRightDashes(TrimLeftDashes(text));
    if value == "" {
      value := "node";
    }
  }

  // -------------------------------------------------------------- the loop finds the words

  /** A dash is left over at the end if the text ends outside a word. */
  function Trail(s: string): string {
    if Words(s) != [] && !IsTagChar(s[|s| - 1]) then "-" else ""
  }

  lemma JoinedCons(w: string, ws: seq<string>)
    requires ws != []
    ensures Joined([w] + ws) == w + "-" + Joined(ws)
  {
    assert ([w] + ws)[1..] == ws;
  }

  /** A word of one character, then something else. */
  lemma GapUnfolds(s: string)
    requires |s| > 1 && IsTagChar(s[0]) && !IsTagChar(s[1])
    ensures Emitted(s, true) == [s[0]] + ("-" + Emitted(s[2..], true))
    ensures Words(s) == [[s[0]]] + Words(s[2..])
  {
    assert s[1..][1..] == s[2..];
    assert Words(s[1..]) == Words(s[2..]);
  }

  lemma TrailOfGap(s: string)
    requires |s| > 1 && IsTagChar(s[0]) && !IsTagChar(s[1])
    ensures Trail(s) == if Words(s[2..]) == [] then "-" else Trail(s[2..])
  {
    GapUnfolds(s);
    if s[2..] != "" {
      assert s[|s| - 1] == s[2..][|s[2..]| - 1];
      if Words(s[2..]) == [] {
        NoWordsNoTagChars(s[2..]);
      }
    }
  }

  lemma WordThenGap(s: string)
    requires |s| > 1 && IsTagChar(s[0]) && !IsTagChar(s[1])
    requires Emitted(s[2..], true) == Joined(Words(s[2..])) + Trail(s[2..])
    ensures Emitted(s, true) == Joined(Words(s)) + Trail(s)
  {
    GapUnfolds(s);
    TrailOfGap(s);
    HeadAndRest([s[0]], Words(s[2..]), Trail(s[2..]));
  }

  lemma HeadAndRest(head: string, ws: seq<string>, trail: string)
    ensures ws == [] ==> Joined([head] + ws) == head && Joined(ws) == ""
    ensures ws != [] ==> head + ("-" + (Joined(ws) + trail)) == Joined([head] + ws) + trail
  {
    if ws != [] {
      JoinedCons(head, ws);
    }
  }

  lemma {:induction false} NoWordsNoTagChars(s: string)
    requires Words(s) == []
    ensures forall i :: 0 <= i < |s| ==> !IsTagChar(s[i])
  {
    if s != "" {
      NoWordsNoTagChars(s[1..]);
    }
  }

  lemma {:induction false} EmittedIsWords(s: string)
    ensures Emitted(s, true) == Joined(Words(s)) + Trail(s)
    ensures s == "" || IsTagChar(s[0]) ==> Emitted(s, false) == Emitted(s, true)
    ensures s != "" && !IsTagChar(s[0]) ==> Emitted(s, false) == "-" + Emitted(s[1..], true)
  {
    if s != "" {
      var rest := s[1..];
      EmittedIsWords(rest);
      if rest != "" {
        assert s[|s| - 1] == rest[|rest| - 1];
      }
      if IsTagChar(s[0]) && rest != "" {
        if IsTagChar(rest[0]) {
          var ws := Words(rest);
          JoinedHead(s[0], ws);
        } else {
          EmittedIsWords(rest[1..]);
          WordThenGap(s);
        }
      }
    }
  }

  lemma JoinedHead(c: char, ws: seq<string>)
    requires ws != []
    ensures Joined([[c] + ws[0]] + ws[1..]) == [c] + Joined(ws)
  {
    if |ws| > 1 {
      assert ([[c] + ws[0]] + ws[1..])[1..] == ws[1..];
    }
  }

  predicate IsWord(w: string) {
    w != "" && forall i :: 0 <= i < |w| ==> IsTagChar(w[i])
  }

  lemma {:induction false} WordsAreWords(s: string)
    ensures forall k :: 0 <= k < |Words(s)| ==> IsWord(Words(s)[k])
  {
    if s != "" {
      WordsAreWords(s[1..]);
    }
  }

  lemma {:induction false} JoinedIsCanonical(ws: seq<string>)
    requires ws != [] && forall k :: 0 <= k < |ws| ==> IsWord(ws[k])
    ensures Canonical(Joined(ws)) && IsTagChar(Joined(ws)[0])
  {
    assert IsWord(ws[0]);
    if |ws| > 1 {
      JoinedIsCanonical(ws[1..]);
    }
  }

  /** At most one dash is left over at either end, and it is trimmed. */
  lemma TrimOfCanonical(lead: string, s: string, trail: string)
    requires Canonical(s) && (lead == "" || lead == "-") && (trail == "" || trail == "-")
    ensures TrimRightDashes(TrimLeftDashes(lead + s + trail)) == s
  {
    var t := s + trail;
    assert lead + s + trail == lead + t && t[0] == s[0];
    assert TrimLeftDashes(lead + t) == t by {
      if lead == "-" { assert (lead + t)[1..] == t; } else { assert lead + t == t; }
    }
    if trail == "-" { assert t[..|s|] == s; } else { assert t == s; }
  }

  /** All the loop writes: the words, and perhaps a dash before and after them. */
  lemma EmittedIsWordsAndDashes(s: string) returns (lead: string, trail: string)
    ensures (lead == "" || lead == "-") && (trail == "" || trail == "-")
    ensures Words(s) != [] ==> Emitted(s, false) == lead + Joined(Words(s)) + trail
    ensures Words(s) == [] ==> Emitted(s, false) == lead
  {
    EmittedIsWords(s);
    if s == "" || IsTagChar(s[0]) {
      lead, trail := "", Trail(s);
      assert lead + Joined(Words(s)) == Joined(Words(s));
    } else {
      EmittedIsWords(s[1..]);
      lead, trail := "-", Trail(s[1..]);
      assert lead + (Joined(Words(s)) + trail) == lead + Joined(Words(s)) + trail;
    }
  }

  lemma TrimOfDash(lead: string)
    requires lead == "" || lead == "-"
    ensures TrimRightDashes(TrimLeftDashes(lead)) == ""
  {
    assert lead == "-" ==> lead[1..] == "";
  }

  /** The loop against its reference: the words of the lower-cased source joined by dashes, or "node". */
  lemma SlugIsJoinedWords(source: string)
    ensures Slug(source) == if Words(ToLower(source)) == [] then "node" else Joined(Words(ToLower(source)))
  {
    var s := ToLower(source);
    var lead, trail := EmittedIsWordsAndDashes(s);
    if Words(s) != [] {
      WordsAreWords(s);
      JoinedIsCanonical(Words(s));
      TrimOfCanonical(lead, Joined(Words(s)), trail);
    } else {
      TrimOfDash(lead);
    }
  }

  lemma SlugIsCanonical(source: string)
    ensures Canonical(Slug(source))
  {
    SlugIsJoinedWords(source);
    WordsAreWords(ToLower(source));
    if Words(ToLower(source)) != [] {
      JoinedIsCanonical(Words(ToLower(source)));
    }
  }

  lemma CanonicalGap(s: string)
    requires Canonical(s) && |s| > 1 && !IsTagChar(s[1])
    ensures |s| > 2 && IsTagChar(s[0]) && s[1] == '-' && Canonical(s[2..])
  {
    assert s[0] != '-' && s[1] == '-' && s[|s| - 1] != '-';
    var tail := s[2..];
    assert forall i :: 0 <= i < |tail| ==> tail[i] == s[i + 2];
    assert !(s[1] == '-' && s[1 + 1] == '-');
  }

  lemma CanonicalRest(s: string)
    requires Canonical(s) && |s| > 1 && IsTagChar(s[1])
    ensures IsTagChar(s[0]) && Canonical(s[1..])
  {
    var rest := s[1..];
    assert forall i :: 0 <= i < |rest| ==> rest[i] == s[i + 1];
  }

  lemma {:induction false} CanonicalSplits(s: string)
    requires s == "" || Canonical(s)
    ensures Joined(Words(s)) == s
  {
    if |s| <= 1 {
      assert s != "" ==> s == [s[0]];
    } else if IsTagChar(s[1]) {
      CanonicalRest(s);
      CanonicalSplits(s[1..]);
      JoinedHead(s[0], Words(s[1..]));
    } else {
      CanonicalGap(s);
      CanonicalSplits(s[2..]);
      GapUnfolds(s);
      JoinedCons([s[0]], Words(s[2..]));
      assert s == [s[0]] + "-" + s[2..];
    }
  }

  /** On ids already in canonical form the slug is the id itself; in particular it is idempotent. */
  lemma SlugIsIdentityOnCanonical(source: string)
    requires Canonical(source)
    ensures Slug(source) == source
  {
    assert ToLower(source) == source;
    SlugIsJoinedWords(source);
    CanonicalSplits(source);
  }

  lemma SlugIsIdempotent(source: string)
    ensures Slug(Slug(source)) == Slug(source)
  {
    SlugIsCanonical(source);
    SlugIsIdentityOnCanonical(Slug(source));
  }

  // ------------------------------------------------------------------------------- tags

  function Source(agentNodeId: string, nodeId: string, name: string): string {
    if agentNodeId != "" then agentNodeId else if nodeId != "" then nodeId else name
  }

  function Tag(protocol: string, source: string): string {
    "node-" + protocol + "-" + Slug(source)
  }

  /** Two nodes get the same tag exactly if they share the protocol and the slug. */
  lemma TagsCollideExactly(p: string, a: string, q: string, b: string)
    requires p in {"naive", "mieru"} && q in {"naive", "mieru"}
    ensures Tag(p, a) == Tag(q, b) <==> p == q && Slug(a) == Slug(b)
  {
    if Tag(p, a) == Tag(q, b) {
      assert Tag(p, a)[5..10] == p && Tag(q, b)[5..10] == q;
      assert Tag(p, a)[11..] == Slug(a) && Tag(q, b)[11..] == Slug(b);
    }
  }

  lemma TagIsNotReserved(protocol: string, source: string)
    ensures Tag(protocol, source) != "proxy" && Tag(protocol, source) != "direct" && Tag(protocol, source) != "dns-out"
  {
    assert Tag(protocol, source)[0] == 'n' && Tag(protocol, source)[1] == 'o';
  }
}
