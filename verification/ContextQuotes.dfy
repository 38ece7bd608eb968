/** What the capsule quotes from a block: its words, one blank apart, cut after 320 characters. */
module ContextQuotes {
  import opened Results
  import opened Text
  import opened ContextTypes
  import opened ContextSummary
  import opened ContextLedger

  /** The words of a text: what white space separates; `word` is the one that is being read. */
  function Words(s: string, word: string := ""): seq<string>
  {
    if s == [] then Ended(word)
    else if IsSpace(s[0]) then Ended(word) + Words(s[1..], "")
    else Words(s[1..], word + [s[0]])
  }

  function Ended(word: string): seq<string> { if word == "" then [] else [word] }

  /** One blank between two words. */
  function Spaced(words: seq<string>): string
  {
    if words == [] then "" else if |words| == 1 then words[0] else words[0] + " " + Spaced(words[1..])
  }

  predicate NoSpace(s: string) { forall i :: 0 <= i < |s| ==> !IsSpace(s[i]) }

  lemma {:induction false} WordsOfSpaces(s: string)
    requires s != [] && IsSpace(s[0])
    ensures Words(s, "") == Words(s[1..], "")
  {
    assert [] + Words(s[1..], "") == Words(s[1..], "");
  }

  /** Once a word has been read, it comes first. */
  lemma {:induction false} WordComesFirst(s: string, word: string)
    requires word != ""
    ensures Words(s, word) != [] && word <= Words(s, word)[0]
    ensures s != [] && IsSpace(s[0]) ==> Words(s, word) == [word] + Words(s[1..], "")
  {
    if s != [] && !IsSpace(s[0]) { WordComesFirst(s[1..], word + [s[0]]); }
  }

  lemma {:induction false} TrimEndKeepsFront(a: string, x: string)
    requires x != [] && !IsSpace(x[0])
    ensures TrimEnd(x) != [] && TrimEnd(a + x) == a + TrimEnd(x)
    decreases |x|
  {
    if IsSpace(x[|x| - 1]) {
      assert (a + x)[..|a + x| - 1] == a + x[..|x| - 1];
      TrimEndKeepsFront(a, x[..|x| - 1]);
    }
  }

  lemma SpacedOneMore(word: string, words: seq<string>)
    requires words != []
    ensures Spaced([word] + words) == word + " " + Spaced(words)
  {
    assert ([word] + words)[1..] == words;
  }

  lemma CollapsedFront(s: string)
    requires s != [] && !IsSpace(s[0])
    ensures Collapse(s) == [s[0]] + Collapse(s[1..])
  {
  }

  /** Reading on behind a word. */
  lemma {:induction false} CollapsedBehindWord(s: string, word: string)
    requires word != "" && NoSpace(word)
    ensures TrimEnd(word + Collapse(s)) == Spaced(Words(s, word))
    decreases |s|
  {
    if s == [] {
      assert word + [] == word;
    } else if !IsSpace(s[0]) {
      CollapsedFront(s);
      assert word + Collapse(s) == (word + [s[0]]) + Collapse(s[1..]);
      CollapsedBehindWord(s[1..], word + [s[0]]);
    } else if |s| > 1 && IsSpace(s[1]) {
      WordComesFirst(s, word);
      WordComesFirst(s[1..], word);
      WordsOfSpaces(s[1..]);
      CollapsedBehindWord(s[1..], word);
    } else {
      WordComesFirst(s, word);
      assert Collapse(s) == [' '] + Collapse(s[1..]);
      if |s| == 1 { SpaceBehindWord(s, word); } else { WordBehindSpace(s, word); CollapsedBehindWord(s[2..], [s[1]]); }
    }
  }

  lemma SpaceBehindWord(s: string, word: string)
    requires |s| == 1 && IsSpace(s[0]) && word != "" && NoSpace(word)
    ensures TrimEnd(word + Collapse(s)) == word && Words(s, word) == [word]
  {
    assert s[1..] == [] && Collapse(s) == [' '] + [];
    assert (word + [' '])[..|word|] == word;
    assert TrimEnd(word + [' ']) == TrimEnd(word) == word;
    assert Words(s, word) == [word] + Words([], "");
  }

  lemma WordBehindSpace(s: string, word: string)
    requires |s| > 1 && IsSpace(s[0]) && !IsSpace(s[1]) && word != "" && NoSpace(word)
    ensures TrimEnd(word + Collapse(s)) == word + " " + TrimEnd([s[1]] + Collapse(s[2..]))
    ensures Spaced(Words(s, word)) == word + " " + Spaced(Words(s[2..], [s[1]]))
  {
    var x := [s[1]] + Collapse(s[2..]);
    CollapsedFront(s[1..]);
    assert s[1..][1..] == s[2..] && Collapse(s[1..]) == x;
    assert word + Collapse(s) == (word + " ") + x;
    TrimEndKeepsFront(word + " ", x);
    WordComesFirst(s, word);
    assert [] + [s[1]] == [s[1]] && Words(s[1..], "") == Words(s[2..], [s[1]]);
    WordComesFirst(s[2..], [s[1]]);
    SpacedOneMore(word, Words(s[2..], [s[1]]));
  }

  /** Collapsing and trimming leaves the words, one blank apart. */
  lemma {:induction false} NormalizedIsSpaced(s: string)
    ensures Trim(Collapse(s)) == Spaced(Words(s))
    decreases |s|
  {
    if s == [] {
    } else if !IsSpace(s[0]) {
      CollapsedFront(s);
      assert TrimStart(Collapse(s)) == Collapse(s);
      CollapsedBehindWord(s[1..], [s[0]]);
      assert [] + [s[0]] == [s[0]];
    } else {
      WordsOfSpaces(s);
      NormalizedIsSpaced(s[1..]);
      if !(|s| > 1 && IsSpace(s[1])) {
        assert Collapse(s) == [' '] + Collapse(s[1..]);
        assert ([' '] + Collapse(s[1..]))[1..] == Collapse(s[1..]);
      }
    }
  }

  /** A text without any word is blank. */
  lemma {:induction false} NoWords(s: string, word: string)
    ensures Words(s, word) == [] <==> word == "" && forall i :: 0 <= i < |s| ==> IsSpace(s[i])
  {
    if s != [] {
      NoWords(s[1..], if IsSpace(s[0]) then "" else word + [s[0]]);
      assert forall i :: 0 < i < |s| ==> s[i] == s[1..][i - 1];
    }
  }

  lemma {:induction false} WordsAreWords(s: string, word: string)
    requires NoSpace(word)
    ensures forall k :: 0 <= k < |Words(s, word)| ==> Words(s, word)[k] != "" && NoSpace(Words(s, word)[k])
  {
    if s != [] { WordsAreWords(s[1..], if IsSpace(s[0]) then "" else word + [s[0]]); }
  }

  lemma SpacedIsBlank(words: seq<string>)
    requires forall k :: 0 <= k < |words| ==> words[k] != ""
    ensures Spaced(words) == "" <==> words == []
  {
  }

  function FirstOf(text: string): string { if |text| <= 320 then text else text[..320] + "…" }

  /** A block is quoted exactly when it is raw and not blank: its label, and the beginning of its words. */
  lemma QuotesTheWords(b: Block)
    ensures Quote(b).Some? <==> b.level == Raw && exists i :: 0 <= i < |b.content| && !IsSpace(b.content[i])
    ensures Quote(b).Some? ==> Quote(b).value == Label(b.kind) + FirstOf(Spaced(Words(b.content)))
  {
    NormalizedIsSpaced(b.content);
    NoWords(b.content, "");
    WordsAreWords(b.content, "");
    SpacedIsBlank(Words(b.content));
  }

  /** Every raw block that is not blank is quoted by the capsule, user messages among the goals and the others among the facts. */
  lemma CapsuleQuotesTheWords(blocks: seq<Block>, b: nat)
    requires b < |blocks| && blocks[b].level == Raw
    requires exists i :: 0 <= i < |blocks[b].content| && !IsSpace(blocks[b].content[i])
    ensures Label(blocks[b].kind) + FirstOf(Spaced(Words(blocks[b].content))) in
              Keys(if blocks[b].kind == User then Capsule(blocks).userGoals else Capsule(blocks).workspaceFacts, Itself)
  {
    QuotesTheWords(blocks[b]);
    CapsuleQuotesEveryRawBlock(blocks, b);
  }

  /** What was said and what a tool has answered is quoted, under the label of who said it. */
  lemma MessagesAreQuoted(session: SessionId, m: Message, n: nat, tokens: int, files: seq<FileRef>, reason: Option<string>, now: Time)
    requires exists i :: 0 <= i < |m.content| && !IsSpace(m.content[i])
    ensures var b := MessageBlockOf(session, m, n, tokens, files, reason, now);
            var quoted := Keys(if m.role == UserRole then Capsule([b]).userGoals else Capsule([b]).workspaceFacts, Itself);
            var prefix := Label(if m.role == UserRole then User else if m.role == AssistantRole then Assistant else SummaryKind);
            prefix + FirstOf(Spaced(Words(m.content))) in quoted
  {
    CapsuleQuotesTheWords([MessageBlockOf(session, m, n, tokens, files, reason, now)], 0);
  }

  lemma ToolResultsAreQuoted(session: SessionId, requestId: Option<string>, call: string, terminal: bool, content: string,
                             tokens: int, folder: Option<string>, files: seq<FileRef>, reason: Option<string>,
                             failure: Option<Summary>, now: Time)
    requires exists i :: 0 <= i < |content| && !IsSpace(content[i])
    ensures var b := ToolBlockOf(session, requestId, call, terminal, content, tokens, folder, files, reason, failure, now);
            Label(if terminal then Terminal else Tool) + FirstOf(Spaced(Words(content))) in Keys(Capsule([b]).workspaceFacts, Itself)
  {
    CapsuleQuotesTheWords([ToolBlockOf(session, requestId, call, terminal, content, tokens, folder, files, reason, failure, now)], 0);
  }
}
