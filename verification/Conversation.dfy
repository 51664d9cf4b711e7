/**
 Conversation memory: the two tables of agent/backend/app/db/database.py (messages,
 rolling summaries) and agent/backend/app/conversation/service.py on top of them.
 The text a model writes as a summary is opaque. ConversationMemory takes the turns of a
 thread one after another; OverlappingTurns lets their summaries overlap in time.
 */
module ConversationMemory {

  datatype Key = Key(user: string, thread: string)

  datatype Row = Row(key: Key, sequence: nat, role: string, content: string, tokens: nat)

  // folded: history, the messages each _summarize call was given.
  datatype Summary = Summary(version: nat, through: nat, text: string, folded: seq<seq<Row>>)

  datatype Store = Store(messages: seq<Row>, summaries: map<Key, Summary>)

  const EMPTY := Store([], map[])

  // ---------------------------------------------------------------- tables

  function CountChinese(text: string): (n: nat)
    ensures n <= |text|
  {
    if text == "" then 0
    else (if '\U{4e00}' <= text[0] <= '\U{9fff}' then 1 else 0) + CountChinese(text[1..])
  }

  function EstimateTokens(text: string): (n: nat)
    ensures n >= 1
  {
    var chinese := CountChinese(text);
    var n := chinese + (|text| - chinese + 3) / 4;
    if n < 1 then 1 else n
  }

  // The positions that hold a character of U+4E00 to U+9FFF.
  function ChineseAt(text: string): set<int> {
    set i | 0 <= i < |text| && 0x4e00 <= text[i] as int <= 0x9fff
  }

  lemma {:induction false} CountedAt(text: string)
    ensures |ChineseAt(text)| == CountChinese(text)
    decreases |text|
  {
    if text != "" {
      var n := |text| - 1;
      CountedAt(text[..n]);
      CountSnoc(text[..n], text[n]);
      assert text == text[..n] + [text[n]];
      ChineseSnoc(text, n);
    } else {
      assert ChineseAt(text) == {};
    }
  }

  lemma ChineseSnoc(text: string, n: nat)
    requires |text| == n + 1
    ensures |ChineseAt(text)| == |ChineseAt(text[..n])| + if 0x4e00 <= text[n] as int <= 0x9fff then 1 else 0
  {
    var before := ChineseAt(text[..n]);
    if 0x4e00 <= text[n] as int <= 0x9fff {
      assert ChineseAt(text) == before + {n};
    } else {
      assert ChineseAt(text) == before;
    }
  }

  lemma {:induction false} CountSnoc(text: string, c: char)
    ensures CountChinese(text + [c]) == CountChinese(text) + if 0x4e00 <= c as int <= 0x9fff then 1 else 0
  {
    if text == "" {
      assert text + [c] == [c] && [c][1..] == "";
    } else {
      CountSnoc(text[1..], c);
      assert (text + [c])[1..] == text[1..] + [c];
    }
  }

  // A text is estimated at one token for each such character and one for every four others,
  // begun or whole, and at one at least.
  lemma EstimateExactly(text: string)
    ensures var k, n := |ChineseAt(text)|, EstimateTokens(text);
      var others: int := |text| - k;
      && others >= 0 && n >= 1
      && (text == "" ==> n == 1)
      && (text != "" ==> n >= k && 4 * (n - k) >= others && 4 * (n - k) < others + 4)
  {
    CountedAt(text);
  }

  // WHERE user_id=? AND thread_id=?, in order of insertion.
  function Thread(messages: seq<Row>, key: Key): (rows: seq<Row>)
    ensures forall r :: r in rows ==> r.key == key
  {
    if messages == [] then []
    else
      var last := messages[|messages| - 1];
      Thread(messages[..|messages| - 1], key) + if last.key == key then [last] else []
  }

  // COALESCE(MAX(sequence), 0).
  function MaxSequence(rows: seq<Row>): (n: nat)
    ensures forall r :: r in rows ==> r.sequence <= n
  {
    if rows == [] then 0
    else
      var n := MaxSequence(rows[..|rows| - 1]);
      var last := rows[|rows| - 1];
      assert forall r :: r in rows ==> r in rows[..|rows| - 1] || r == last;
      if last.sequence > n then last.sequence else n
  }

  function AddMessage(s: Store, key: Key, role: string, content: string): Store {
    var row := Row(key, MaxSequence(Thread(s.messages, key)) + 1, role, content, EstimateTokens(content));
    s.(messages := s.messages + [row])
  }

  // sequence > after.
  function After(rows: seq<Row>, after: nat): (r: seq<Row>)
    ensures forall x :: x in r ==> x in rows && x.sequence > after
  {
    if rows == [] then []
    else (if rows[0].sequence > after then [rows[0]] else []) + After(rows[1..], after)
  }

  function Clamp(low: nat, x: nat, high: nat): nat {
    var y := if x < high then x else high;
    if low > y then low else y
  }

  function FirstOf(rows: seq<Row>, limit: nat): seq<Row> {
    if |rows| <= limit then rows else rows[..limit]
  }

  function LastOf(rows: seq<Row>, limit: nat): seq<Row> {
    if |rows| <= limit then rows else rows[|rows| - limit..]
  }

  // ORDER BY sequence ASC LIMIT ?, and DESC read backwards: a thread's rows are stored in
  // order of their sequence (Numbered below), so both keep the order of insertion.
  function ListAfter(s: Store, key: Key, after: nat, limit: nat): seq<Row> {
    FirstOf(After(Thread(s.messages, key), after), Clamp(1, limit, 5000))
  }

  function ListLatest(s: Store, key: Key, limit: nat): seq<Row> {
    LastOf(Thread(s.messages, key), Clamp(1, limit, 1000))
  }

  // ---------------------------------------------------------------- summaries

  datatype Limits = Limits(recent: nat, budget: nat, trigger: nat)

  function SumTokens(rows: seq<Row>): nat {
    if rows == [] then 0 else rows[0].tokens + SumTokens(rows[1..])
  }

  // rows[:-n]: with n = 0 nothing is left, not everything.
  function DropLast(rows: seq<Row>, n: nat): seq<Row> {
    if n == 0 || |rows| <= n then [] else rows[..|rows| - n]
  }

  function Through(s: Store, key: Key): nat {
    if key in s.summaries then s.summaries[key].through else 0
  }

  function Fold(s: Store, key: Key, candidates: seq<Row>, text: string): Store
    requires candidates != []
  {
    var (version, folded) := if key in s.summaries then (s.summaries[key].version, s.summaries[key].folded) else (0, []);
    s.(summaries := s.summaries[key := Summary(version + 1, candidates[|candidates| - 1].sequence, text, folded + [candidates])])
  }

  // maybe_summarize, text being what _summarize returns.
  function MaybeSummarize(s: Store, key: Key, l: Limits, text: string): Store {
    var pending := ListAfter(s, key, Through(s, key), 1000);
    var candidates := DropLast(pending, l.recent);
    if (SumTokens(pending) <= l.trigger && |pending| <= l.recent * 2) || candidates == [] then s
    else Fold(s, key, candidates, text)
  }

  // complete_turn, answer being stripped already.
  function CompleteTurn(s: Store, key: Key, l: Limits, answer: string, text: string): Store {
    MaybeSummarize(if answer != "" then AddMessage(s, key, "assistant", answer) else s, key, l, text)
  }

  // ---------------------------------------------------------------- the invariant

  function Joined(parts: seq<seq<Row>>): seq<Row> {
    if parts == [] then [] else Joined(parts[..|parts| - 1]) + parts[|parts| - 1]
  }

  ghost predicate Numbered(rows: seq<Row>) {
    forall i :: 0 <= i < |rows| ==> rows[i].sequence == i + 1
  }

  // The summary stands for the messages up to through, each folded once and in order.
  ghost predicate Covers(rows: seq<Row>, m: Summary, recent: nat) {
    && 0 < m.through && m.through + recent <= |rows| && recent > 0
    && Joined(m.folded) == rows[..m.through]
    && forall i :: 0 <= i < |m.folded| ==> m.folded[i] != []
  }

  ghost predicate SummaryRight(rows: seq<Row>, m: Summary, recent: nat) {
    Covers(rows, m, recent) && m.version == |m.folded|
  }

  ghost predicate ThreadInv(s: Store, key: Key, recent: nat) {
    var rows := Thread(s.messages, key);
    Numbered(rows) && (key in s.summaries ==> SummaryRight(rows, s.summaries[key], recent))
  }

  ghost predicate Inv(s: Store, recent: nat) { forall key :: ThreadInv(s, key, recent) }

  lemma ThreadAppend(messages: seq<Row>, row: Row, key: Key)
    ensures Thread(messages + [row], key) == Thread(messages, key) + if row.key == key then [row] else []
  {
    assert (messages + [row])[..|messages|] == messages;
  }

  lemma {:induction false} MaxOfNumbered(rows: seq<Row>)
    requires Numbered(rows)
    ensures MaxSequence(rows) == |rows|
  {
    if rows != [] { MaxOfNumbered(rows[..|rows| - 1]); }
  }

  lemma {:induction false} AllAfter(rows: seq<Row>, after: nat)
    requires forall i :: 0 <= i < |rows| ==> rows[i].sequence > after
    ensures After(rows, after) == rows
  {
    if rows != [] {
      AllAfter(rows[1..], after);
      assert rows == [rows[0]] + rows[1..];
    }
  }

  lemma {:induction false} AfterNumbered(rows: seq<Row>, base: nat, after: nat)
    requires forall i :: 0 <= i < |rows| ==> rows[i].sequence == base + i + 1
    requires base <= after <= base + |rows|
    ensures After(rows, after) == rows[after - base..]
  {
    if after == base {
      AllAfter(rows, after);
    } else {
      assert forall i :: 0 <= i < |rows[1..]| ==> rows[1..][i] == rows[i + 1];
      AfterNumbered(rows[1..], base + 1, after);
    }
  }

  lemma ThroughBound(s: Store, key: Key, recent: nat)
    requires ThreadInv(s, key, recent)
    ensures Through(s, key) <= |Thread(s.messages, key)| && Numbered(Thread(s.messages, key))
  {
    hide Joined, Thread;
  }

  // How many unsummarised messages one call looks at.
  function Window(rows: seq<Row>, through: nat): nat
    requires through <= |rows|
  {
    if |rows| - through <= 1000 then |rows| - through else 1000
  }

  // Which messages maybe_summarize looks at, for a numbered thread.
  lemma PendingIs(s: Store, key: Key, recent: nat)
    requires ThreadInv(s, key, recent)
    ensures var rows, t := Thread(s.messages, key), Through(s, key);
      t <= |rows| && ListAfter(s, key, t, 1000) == rows[t..t + Window(rows, t)]
  {
    hide ThreadInv, Thread, After, Through;
    var rows, t := Thread(s.messages, key), Through(s, key);
    ThroughBound(s, key, recent);
    AfterNumbered(rows, 0, t);
    assert rows[t..|rows|] == rows[t..];
    assert |rows| - t > 1000 ==> rows[t..][..1000] == rows[t..t + 1000];
  }

  lemma AddKeeps(s: Store, key: Key, role: string, content: string, recent: nat)
    requires Inv(s, recent)
    ensures Inv(AddMessage(s, key, role, content), recent)
  {
    hide Joined, Thread, EstimateTokens, MaxSequence;
    var t := AddMessage(s, key, role, content);
    forall k ensures ThreadInv(t, k, recent) {
      assert ThreadInv(s, k, recent);
      var rows := Thread(s.messages, k);
      MaxOfNumbered(rows);
      ThreadAppend(s.messages, t.messages[|s.messages|], k);
      assert k in s.summaries ==> Thread(t.messages, k)[..s.summaries[k].through] == rows[..s.summaries[k].through];
    }
  }

  lemma DropWindow(rows: seq<Row>, t: nat, w: nat, recent: nat)
    requires t + w <= |rows|
    ensures DropLast(rows[t..t + w], recent) == if w > recent > 0 then rows[t..t + w - recent] else []
  {
    if w > recent > 0 { assert rows[t..t + w][..w - recent] == rows[t..t + w - recent]; }
  }

  lemma FoldThrough(s: Store, key: Key, rows: seq<Row>, t: nat, upTo: nat, text: string)
    requires Numbered(rows) && t < upTo <= |rows|
    ensures Through(Fold(s, key, rows[t..upTo], text), key) == upTo
  {}

  // A message is stored last, under the next number, as it was given.
  lemma MessageStored(s: Store, key: Key, role: string, content: string, recent: nat)
    requires ThreadInv(s, key, recent)
    ensures var t, rows := AddMessage(s, key, role, content), Thread(s.messages, key);
      && Thread(t.messages, key) == rows + [Row(key, |rows| + 1, role, content, EstimateTokens(content))]
      && t.summaries == s.summaries
  {
    hide Thread, EstimateTokens, Joined;
    MaxOfNumbered(Thread(s.messages, key));
    ThreadAppend(s.messages, AddMessage(s, key, role, content).messages[|s.messages|], key);
  }

  // A turn that brought an answer ends with it stored, as the assistant's.
  lemma TurnStored(s: Store, key: Key, l: Limits, answer: string, text: string)
    requires Inv(s, l.recent)
    ensures var t, rows := CompleteTurn(s, key, l, answer, text), Thread(s.messages, key);
      && Thread(t.messages, key) ==
        (if answer == "" then rows else rows + [Row(key, |rows| + 1, "assistant", answer, EstimateTokens(answer))])
      && t.summaries == MaybeSummarize(s.(messages := t.messages), key, l, text).summaries
  {
    hide Thread, EstimateTokens, MaybeSummarize, Joined;
    assert ThreadInv(s, key, l.recent);
    MessageStored(s, key, "assistant", answer, l.recent);
    SummarizeMessages(s, key, l, text);
    SummarizeMessages(AddMessage(s, key, "assistant", answer), key, l, text);
  }

  lemma SummarizeMessages(s: Store, key: Key, l: Limits, text: string)
    ensures MaybeSummarize(s, key, l, text).messages == s.messages
  {
    hide ListAfter, SumTokens, DropLast;
  }

  // A fold stores the text it was given under the next version, and nothing else.
  lemma FoldStores(s: Store, key: Key, candidates: seq<Row>, text: string)
    requires candidates != []
    ensures var t := Fold(s, key, candidates, text);
      && t.messages == s.messages && t.summaries.Keys == s.summaries.Keys + {key}
      && t.summaries[key].text == text && t.summaries[key].through == candidates[|candidates| - 1].sequence
      && t.summaries[key].version == (if key in s.summaries then s.summaries[key].version else 0) + 1
      && forall k :: k in s.summaries && k != key ==> t.summaries[k] == s.summaries[k]
  {}

  // Exactly what a call does: it folds the window of at most 1000 unsummarised messages,
  // all but the newest `recent` of it, when the window is heavy or long enough.
  lemma SummarizeExactly(s: Store, key: Key, l: Limits, text: string)
    requires ThreadInv(s, key, l.recent)
    ensures var rows, t, r := Thread(s.messages, key), Through(s, key), MaybeSummarize(s, key, l, text);
      t <= |rows| &&
      var w := Window(rows, t);
      if (SumTokens(rows[t..t + w]) > l.trigger || w > 2 * l.recent) && w > l.recent > 0
      then r == Fold(s, key, rows[t..t + w - l.recent], text) && Through(r, key) == t + w - l.recent
      else r == s
  {
    hide ThreadInv, Thread, ListAfter, SumTokens, DropLast, Through, Fold;
    ThroughBound(s, key, l.recent);
    PendingIs(s, key, l.recent);
    var rows, t := Thread(s.messages, key), Through(s, key);
    var w := Window(rows, t);
    DropWindow(rows, t, w, l.recent);
    if w > l.recent > 0 {
      FoldThrough(s, key, rows, t, t + w - l.recent, text);
    }
  }

  lemma SummarizeKeeps(s: Store, key: Key, l: Limits, text: string)
    requires Inv(s, l.recent)
    ensures Inv(MaybeSummarize(s, key, l, text), l.recent)
  {
    hide Joined, Thread, MaybeSummarize, SumTokens;
    assert ThreadInv(s, key, l.recent);
    SummarizeExactly(s, key, l, text);
    var t := MaybeSummarize(s, key, l, text);
    if t != s {
      forall k ensures ThreadInv(t, k, l.recent) {
        assert ThreadInv(s, k, l.recent);
        if k == key { FoldRight(s, key, l, text); }
      }
    }
  }

  lemma JoinedSnoc(parts: seq<seq<Row>>, last: seq<Row>)
    ensures Joined(parts + [last]) == Joined(parts) + last
  {
    assert (parts + [last])[..|parts|] == parts;
  }

  lemma FoldSummary(s: Store, key: Key, recent: nat, upTo: nat, text: string)
    requires ThreadInv(s, key, recent) && recent > 0
    requires Through(s, key) < upTo && upTo + recent <= |Thread(s.messages, key)|
    ensures var rows := Thread(s.messages, key);
      SummaryRight(rows, Fold(s, key, rows[Through(s, key)..upTo], text).summaries[key], recent)
  {
    hide Thread, Joined;
    var rows, t := Thread(s.messages, key), Through(s, key);
    var candidates := rows[t..upTo];
    var before := if key in s.summaries then s.summaries[key].folded else [];
    JoinedSnoc(before, candidates);
    assert Joined(before) == rows[..t] by { JoinedNone(); }
    assert rows[..t] + candidates == rows[..upTo];
  }

  lemma JoinedNone()
    ensures Joined([]) == []
  {}

  lemma FoldRight(s: Store, key: Key, l: Limits, text: string)
    requires ThreadInv(s, key, l.recent) && MaybeSummarize(s, key, l, text) != s
    ensures ThreadInv(MaybeSummarize(s, key, l, text), key, l.recent)
  {
    hide Thread, MaybeSummarize, SumTokens, SummaryRight;
    SummarizeExactly(s, key, l, text);
    var rows, t := Thread(s.messages, key), Through(s, key);
    FoldSummary(s, key, l.recent, t + Window(rows, t) - l.recent, text);
  }

  // ---------------------------------------------------------------- all runs

  datatype Action =
    | Add(key: Key, role: string, content: string)
    | Summarize(key: Key, text: string)

  function Next(s: Store, a: Action, l: Limits): Store {
    match a
    case Add(key, role, content) => AddMessage(s, key, role, content)
    case Summarize(key, text) => MaybeSummarize(s, key, l, text)
  }

  function Run(s: Store, actions: seq<Action>, l: Limits): Store
    decreases |actions|
  {
    if actions == [] then s else Run(Next(s, actions[0], l), actions[1..], l)
  }

  lemma NextKeeps(s: Store, a: Action, l: Limits)
    requires Inv(s, l.recent)
    ensures Inv(Next(s, a, l), l.recent)
  {
    match a
    case Add(key, role, content) => AddKeeps(s, key, role, content, l.recent);
    case Summarize(key, text) => SummarizeKeeps(s, key, l, text);
  }

  lemma {:induction false} RunKeeps(s: Store, actions: seq<Action>, l: Limits)
    requires Inv(s, l.recent)
    ensures Inv(Run(s, actions, l), l.recent)
    decreases |actions|
  {
    hide Inv, Next;
    if actions != [] {
      NextKeeps(s, actions[0], l);
      RunKeeps(Next(s, actions[0], l), actions[1..], l);
    }
  }

  // In every run over any number of threads: a thread's messages are numbered 1..n; those up
  // to through_sequence have been folded, each in exactly one call and in order; at least
  // `recent` messages are not summarised; and the version counts the calls.
  lemma SummariesHaveNoGaps(actions: seq<Action>, l: Limits, key: Key)
    ensures var s := Run(EMPTY, actions, l);
      var rows := Thread(s.messages, key);
      && (forall i :: 0 <= i < |rows| ==> rows[i].sequence == i + 1)
      && (key in s.summaries ==>
            var m := s.summaries[key];
            && m.through + l.recent <= |rows| && Joined(m.folded) == rows[..m.through]
            && m.version == |m.folded| && forall i :: 0 <= i < |m.folded| ==> m.folded[i] != [])
  {
    hide Joined, Next, Thread;
    assert Inv(EMPTY, l.recent) by { EmptyInv(l.recent); }
    RunKeeps(EMPTY, actions, l);
    assert ThreadInv(Run(EMPTY, actions, l), key, l.recent);
  }

  lemma EmptyInv(recent: nat)
    ensures Inv(EMPTY, recent)
  {}

  // A step never moves a thread's through_sequence back, and touches no other thread.
  lemma StepIsLocal(s: Store, a: Action, l: Limits, other: Key)
    requires Inv(s, l.recent)
    ensures Through(Next(s, a, l), a.key) >= Through(s, a.key)
    ensures other != a.key ==>
      && Thread(Next(s, a, l).messages, other) == Thread(s.messages, other)
      && (other in Next(s, a, l).summaries <==> other in s.summaries)
      && (other in s.summaries ==> Next(s, a, l).summaries[other] == s.summaries[other])
  {
    hide Joined, Thread, MaybeSummarize, EstimateTokens, SumTokens;
    match a
    case Add(key, role, content) =>
      ThreadAppend(s.messages, AddMessage(s, key, role, content).messages[|s.messages|], other);
    case Summarize(key, text) =>
      assert ThreadInv(s, key, l.recent);
      SummarizeExactly(s, key, l, text);
  }

  // ---------------------------------------------------------------- the recent window

  function Suffix(rows: seq<Row>, k: nat): seq<Row>
    requires k <= |rows|
  {
    rows[|rows| - k..]
  }

  // The newest k messages are what context() keeps: at least one if there is any, else as
  // many as the message limit and the token budget allow, and no fewer.
  predicate Keeps(rows: seq<Row>, k: nat, l: Limits) {
    && k <= |rows| && (rows != [] ==> k >= 1)
    && (k >= 2 ==> k <= l.recent && SumTokens(Suffix(rows, k)) <= l.budget)
    && (0 < k < |rows| ==> k >= l.recent || SumTokens(Suffix(rows, k + 1)) > l.budget)
  }

  lemma {:induction false} SuffixGrows(rows: seq<Row>, j: nat, k: nat)
    requires j <= k <= |rows|
    ensures SumTokens(Suffix(rows, j)) <= SumTokens(Suffix(rows, k))
    decreases k
  {
    if j < k {
      SuffixGrows(rows, j, k - 1);
      assert Suffix(rows, k)[1..] == Suffix(rows, k - 1);
    }
  }

  // These rules leave one choice.
  lemma KeepsOne(rows: seq<Row>, j: nat, k: nat, l: Limits)
    requires Keeps(rows, j, l) && Keeps(rows, k, l)
    ensures j == k
  {
    hide SumTokens, Suffix;
    if j < k {
      SuffixGrows(rows, j + 1, k);
    } else if k < j {
      SuffixGrows(rows, k + 1, j);
    }
  }

  // The window is within the budget exactly when the newest message alone is.
  lemma BudgetIff(rows: seq<Row>, k: nat, l: Limits)
    requires Keeps(rows, k, l)
    ensures SumTokens(Suffix(rows, k)) <= l.budget <==> rows == [] || rows[|rows| - 1].tokens <= l.budget
  {
    if rows != [] {
      SuffixGrows(rows, 1, k);
      assert Suffix(rows, 1) == [rows[|rows| - 1]];
      assert [rows[|rows| - 1]][1..] == [];
    }
  }

  // Reading only the newest rows loses nothing, if they are as many as the window may hold.
  lemma RowLimitHarmless(rows: seq<Row>, n: nat, k: nat, l: Limits)
    requires n >= l.recent && n >= 1 && Keeps(LastOf(rows, n), k, l)
    ensures Keeps(rows, k, l) && Suffix(rows, k) == Suffix(LastOf(rows, n), k)
  {
    hide SumTokens, Suffix;
    var latest := LastOf(rows, n);
    SuffixOfLast(rows, n, k);
    if k < |latest| { SuffixOfLast(rows, n, k + 1); }
  }

  lemma SuffixOfLast(rows: seq<Row>, n: nat, k: nat)
    requires k <= |LastOf(rows, n)|
    ensures k <= |rows| && Suffix(rows, k) == Suffix(LastOf(rows, n), k)
  {}

  function Reversed(rows: seq<Row>): (r: seq<Row>)
    ensures |r| == |rows|
  {
    if rows == [] then [] else Reversed(rows[1..]) + [rows[0]]
  }

  lemma {:induction false} ReversedSnoc(rows: seq<Row>, row: Row)
    ensures Reversed(rows + [row]) == [row] + Reversed(rows)
  {
    if rows != [] {
      ReversedSnoc(rows[1..], row);
      assert (rows + [row])[1..] == rows[1..] + [row];
    } else {
      assert [row][1..] == [];
    }
  }
}

// Calls of maybe_summarize that overlap in time: each reads the summary, then the messages,
// waits for the model, and stores what it has, whatever others stored meanwhile.
module OverlappingTurns {
  import opened ConversationMemory

  datatype Option<T> = None | Some(value: T)

  // A call under way: the summary it read, and then what it folds.
  datatype Job =
    | Begun(key: Key, base: Option<Summary>)
    | Waiting(key: Key, base: Option<Summary>, candidates: seq<Row>)

  // overtaken: history, the threads on which a call stored its summary over one it had not read.
  datatype State = State(store: Store, jobs: map<nat, Job>, overtaken: set<Key>)

  const START := State(EMPTY, map[], {})

  datatype Action =
    | Message(key: Key, role: string, content: string)
    | Begin(id: nat, key: Key)
    | Look(id: nat)
    | Save(id: nat, text: string)

  function Stored(s: Store, key: Key): Option<Summary> {
    if key in s.summaries then Some(s.summaries[key]) else None
  }

  function ThroughOf(base: Option<Summary>): nat {
    if base.Some? then base.value.through else 0
  }

  function FoldedOf(base: Option<Summary>): seq<seq<Row>> {
    if base.Some? then base.value.folded else []
  }

  function VersionOf(base: Option<Summary>): nat {
    if base.Some? then base.value.version else 0
  }

  // The messages a call folds when it has read base; none if it has nothing to do.
  function Candidates(s: Store, key: Key, base: Option<Summary>, l: Limits): seq<Row> {
    var pending := ListAfter(s, key, ThroughOf(base), 1000);
    if SumTokens(pending) <= l.trigger && |pending| <= l.recent * 2 then [] else DropLast(pending, l.recent)
  }

  // What a call stores: the summary it read, with its candidates, under the next version.
  function Result(s: Store, key: Key, base: Option<Summary>, candidates: seq<Row>, text: string): Summary
    requires candidates != []
  {
    Summary(VersionOf(Stored(s, key)) + 1, candidates[|candidates| - 1].sequence, text, FoldedOf(base) + [candidates])
  }

  predicate Enabled(s: State, a: Action) {
    match a
    case Message(_, _, _) => true
    case Begin(id, _) => id !in s.jobs
    case Look(id) => id in s.jobs && s.jobs[id].Begun?
    case Save(id, _) => id in s.jobs && s.jobs[id].Waiting? && s.jobs[id].candidates != []
  }

  function Next(s: State, a: Action, l: Limits): State
    requires Enabled(s, a)
  {
    match a
    case Message(key, role, content) => s.(store := AddMessage(s.store, key, role, content))
    case Begin(id, key) => s.(jobs := s.jobs[id := Begun(key, Stored(s.store, key))])
    case Look(id) =>
      var j := s.jobs[id];
      var candidates := Candidates(s.store, j.key, j.base, l);
      s.(jobs := if candidates == [] then s.jobs - {id} else s.jobs[id := Waiting(j.key, j.base, candidates)])
    case Save(id, text) =>
      var j := s.jobs[id];
      State(s.store.(summaries := s.store.summaries[j.key := Result(s.store, j.key, j.base, j.candidates, text)]),
            s.jobs - {id},
            if Stored(s.store, j.key) == j.base then s.overtaken else s.overtaken + {j.key})
  }

  ghost predicate Reaches(s: State, actions: seq<Action>, l: Limits, t: State)
    decreases |actions|
  {
    if actions == [] then t == s
    else Enabled(s, actions[0]) && Reaches(Next(s, actions[0], l), actions[1..], l, t)
  }

  // A call that no other overlaps is maybe_summarize as ConversationMemory has it.
  lemma AloneIsSummarize(s: Store, key: Key, l: Limits, text: string)
    ensures var candidates := Candidates(s, key, Stored(s, key), l);
      MaybeSummarize(s, key, l, text) ==
        if candidates == [] then s else s.(summaries := s.summaries[key := Result(s, key, Stored(s, key), candidates, text)])
  {
    hide ListAfter, SumTokens, DropLast;
  }

  // ---------------------------------------------------------------- the invariant

  // base was once the summary of a thread whose messages are rows now, or there was none.
  ghost predicate BaseRight(rows: seq<Row>, base: Option<Summary>, now: Option<Summary>, recent: nat) {
    && (base.Some? ==> Covers(rows, base.value, recent) && |base.value.folded| <= base.value.version)
    && (base == now || VersionOf(base) < VersionOf(now))
  }

  ghost predicate JobRight(rows: seq<Row>, j: Job, now: Option<Summary>, recent: nat) {
    && BaseRight(rows, j.base, now, recent)
    && (j.Waiting? ==>
          var t, k := ThroughOf(j.base), |j.candidates|;
          k > 0 && recent > 0 && t + k + recent <= |rows| && j.candidates == rows[t..t + k])
  }

  ghost predicate KeyRight(s: State, key: Key, recent: nat) {
    var rows, now := Thread(s.store.messages, key), Stored(s.store, key);
    && Numbered(rows) && BaseRight(rows, now, now, recent)
    && (VersionOf(now) == |FoldedOf(now)| <==> key !in s.overtaken)
    && forall id :: id in s.jobs && s.jobs[id].key == key ==> JobRight(rows, s.jobs[id], now, recent)
  }

  ghost predicate Inv(s: State, recent: nat) { forall key :: KeyRight(s, key, recent) }

  lemma CoversMore(rows: seq<Row>, more: seq<Row>, m: Summary, recent: nat)
    requires Covers(rows, m, recent)
    ensures Covers(rows + more, m, recent)
  {
    hide Joined;
    assert (rows + more)[..m.through] == rows[..m.through];
  }

  lemma JobMore(rows: seq<Row>, more: seq<Row>, j: Job, now: Option<Summary>, recent: nat)
    requires JobRight(rows, j, now, recent)
    ensures JobRight(rows + more, j, now, recent)
  {
    hide Covers;
    if j.base.Some? { CoversMore(rows, more, j.base.value, recent); }
    if j.Waiting? {
      var t, k := ThroughOf(j.base), |j.candidates|;
      assert (rows + more)[t..t + k] == rows[t..t + k];
    }
  }

  lemma MessageKeeps(s: State, a: Action, l: Limits)
    requires Inv(s, l.recent) && a.Message?
    ensures Inv(Next(s, a, l), l.recent)
  {
    hide Covers, Thread, EstimateTokens, MaxSequence, JobRight;
    var t := Next(s, a, l);
    var row := t.store.messages[|s.store.messages|];
    forall key ensures KeyRight(t, key, l.recent) {
      assert KeyRight(s, key, l.recent);
      var rows := Thread(s.store.messages, key);
      MaxOfNumbered(rows);
      ThreadAppend(s.store.messages, row, key);
      var more := if row.key == key then [row] else [];
      var now := Stored(s.store, key);
      if now.Some? { CoversMore(rows, more, now.value, l.recent); }
      forall id | id in s.jobs && s.jobs[id].key == key ensures JobRight(rows + more, s.jobs[id], now, l.recent) {
        JobMore(rows, more, s.jobs[id], now, l.recent);
      }
    }
  }

  lemma BeginKeeps(s: State, a: Action, l: Limits)
    requires Inv(s, l.recent) && a.Begin? && Enabled(s, a)
    ensures Inv(Next(s, a, l), l.recent)
  {
    hide Covers, Thread, Numbered;
    var t := Next(s, a, l);
    forall key ensures KeyRight(t, key, l.recent) {
      assert KeyRight(s, key, l.recent);
    }
  }

  // What a call finds to fold begins right after what the summary it read covers.
  lemma CandidatesAre(s: Store, key: Key, base: Option<Summary>, l: Limits)
    requires Numbered(Thread(s.messages, key)) && ThroughOf(base) <= |Thread(s.messages, key)|
    ensures var rows, t, c := Thread(s.messages, key), ThroughOf(base), Candidates(s, key, base, l);
      c != [] ==> l.recent > 0 && t + |c| + l.recent <= |rows| && c == rows[t..t + |c|]
  {
    hide Thread, After, SumTokens, ThroughOf;
    var rows, t := Thread(s.messages, key), ThroughOf(base);
    AfterNumbered(rows, 0, t);
    var w := Window(rows, t);
    assert ListAfter(s, key, t, 1000) == rows[t..t + w] by {
      assert rows[t..|rows|] == rows[t..];
      assert |rows| - t > 1000 ==> rows[t..][..1000] == rows[t..t + 1000];
    }
    DropWindow(rows, t, w, l.recent);
  }

  lemma LookKeeps(s: State, a: Action, l: Limits)
    requires Inv(s, l.recent) && a.Look? && Enabled(s, a)
    ensures Inv(Next(s, a, l), l.recent)
  {
    hide Joined, Thread, Candidates;
    var t, j := Next(s, a, l), s.jobs[a.id];
    forall key ensures KeyRight(t, key, l.recent) {
      assert KeyRight(s, key, l.recent);
      if key == j.key { CandidatesAre(s.store, key, j.base, l); }
    }
  }

  // What a call stores covers the thread up to the end of what it folded.
  lemma ResultCovers(s: Store, j: Job, text: string, recent: nat)
    requires Numbered(Thread(s.messages, j.key)) && j.Waiting?
    requires JobRight(Thread(s.messages, j.key), j, Stored(s, j.key), recent)
    ensures j.candidates != []
    ensures var m := Result(s, j.key, j.base, j.candidates, text);
      && Covers(Thread(s.messages, j.key), m, recent)
      && m.through == ThroughOf(j.base) + |j.candidates|
      && |m.folded| <= m.version
      && (|m.folded| == m.version <==> Stored(s, j.key) == j.base && |FoldedOf(j.base)| == VersionOf(j.base))
  {
    hide Thread, Joined;
    var rows, t, k := Thread(s.messages, j.key), ThroughOf(j.base), |j.candidates|;
    JoinedSnoc(FoldedOf(j.base), j.candidates);
    JoinedNone();
    assert rows[..t] + rows[t..t + k] == rows[..t + k];
    assert j.candidates[k - 1] == rows[t + k - 1];
  }

  lemma SaveKeeps(s: State, a: Action, l: Limits)
    requires Inv(s, l.recent) && a.Save? && Enabled(s, a)
    ensures Inv(Next(s, a, l), l.recent)
  {
    hide Thread, Covers, Numbered, Result;
    var t, j := Next(s, a, l), s.jobs[a.id];
    forall key ensures KeyRight(t, key, l.recent) {
      assert KeyRight(s, key, l.recent);
      if key == j.key {
        ResultCovers(s.store, j, a.text, l.recent);
        ResultVersion(s.store, j, a.text);
      }
    }
  }

  lemma ResultVersion(s: Store, j: Job, text: string)
    requires j.Waiting? && j.candidates != []
    ensures Result(s, j.key, j.base, j.candidates, text).version == VersionOf(Stored(s, j.key)) + 1
  {}

  lemma NextKeeps(s: State, a: Action, l: Limits)
    requires Inv(s, l.recent) && Enabled(s, a)
    ensures Inv(Next(s, a, l), l.recent)
  {
    hide Inv, Next, Enabled;
    match a
    case Message(_, _, _) => MessageKeeps(s, a, l);
    case Begin(_, _) => BeginKeeps(s, a, l);
    case Look(_) => LookKeeps(s, a, l);
    case Save(_, _) => SaveKeeps(s, a, l);
  }

  lemma {:induction false} ReachesKeeps(s: State, actions: seq<Action>, l: Limits, t: State)
    requires Inv(s, l.recent) && Reaches(s, actions, l, t)
    ensures Inv(t, l.recent)
    decreases |actions|
  {
    hide Inv, Next, Enabled;
    if actions != [] {
      NextKeeps(s, actions[0], l);
      ReachesKeeps(Next(s, actions[0], l), actions[1..], l, t);
    }
  }

  lemma StartInv(recent: nat)
    ensures Inv(START, recent)
  {}

  // ---------------------------------------------------------------- the promises

  // Whatever overlaps, the stored summary of a thread stands for the messages up to its
  // through_sequence, each folded into it once and in order, and leaves the newest out. The
  // version counts the calls that went into it exactly when none stored its summary over one
  // it had not read; else calls were for nothing.
  lemma OverlapsLeaveNoGaps(actions: seq<Action>, l: Limits, t: State, key: Key)
    requires Reaches(START, actions, l, t)
    ensures var rows := Thread(t.store.messages, key);
      && (forall i :: 0 <= i < |rows| ==> rows[i].sequence == i + 1)
      && (key in t.store.summaries ==>
            var m := t.store.summaries[key];
            && m.through + l.recent <= |rows| && Joined(m.folded) == rows[..m.through]
            && |m.folded| <= m.version && (|m.folded| == m.version <==> key !in t.overtaken))
  {
    hide Joined, Thread;
    StartInv(l.recent);
    ReachesKeeps(START, actions, l, t);
    assert KeyRight(t, key, l.recent);
  }

  // through_sequence moves to the end of what the call folded: forward if the summary it
  // read is still there, and back only if it stores over a summary it has not read.
  lemma SaveMoves(actions: seq<Action>, l: Limits, s: State, a: Action)
    requires Reaches(START, actions, l, s) && a.Save? && Enabled(s, a)
    ensures var j := s.jobs[a.id];
      var now, next := ThroughOf(Stored(s.store, j.key)), ThroughOf(Stored(Next(s, a, l).store, j.key));
      && next == ThroughOf(j.base) + |j.candidates|
      && (Stored(s.store, j.key) == j.base ==> next > now)
      && (next < now ==> Stored(s.store, j.key) != j.base && j.key in Next(s, a, l).overtaken)
  {
    hide Joined, Thread, Covers;
    StartInv(l.recent);
    ReachesKeeps(START, actions, l, s);
    var j := s.jobs[a.id];
    assert KeyRight(s, j.key, l.recent);
    ResultCovers(s.store, j, a.text, l.recent);
  }

  // With these limits a call folds all but the newest message, however short.
  const EAGER := Limits(1, 0, 0)

  lemma EagerCandidates(s: Store, key: Key)
    requires var rows := Thread(s.messages, key); Numbered(rows) && 2 <= |rows| <= 1000 && rows[0].tokens > 0
    ensures var rows := Thread(s.messages, key); Candidates(s, key, None, EAGER) == rows[..|rows| - 1]
  {
    hide Thread, After;
    var rows := Thread(s.messages, key);
    AfterNumbered(rows, 0, 0);
    assert ListAfter(s, key, 0, 1000) == rows;
  }

  lemma Messages(s: State, key: Key, content: string)
    requires Numbered(Thread(s.store.messages, key))
    ensures var t := Next(s, Message(key, "user", content), EAGER);
      var was, rows := Thread(s.store.messages, key), Thread(t.store.messages, key);
      && t == s.(store := s.store.(messages := t.store.messages))
      && |rows| == |was| + 1 && rows[..|was|] == was && Numbered(rows) && rows[|was|].tokens > 0
  {
    hide Thread, EstimateTokens, MaxSequence;
    var t := Next(s, Message(key, "user", content), EAGER);
    MaxOfNumbered(Thread(s.store.messages, key));
    ThreadAppend(s.store.messages, t.store.messages[|s.store.messages|], key);
  }

  lemma NoMore(s: State, l: Limits)
    ensures Reaches(s, [], l, s)
  {}

  lemma OneMore(s: State, a: Action, more: seq<Action>, l: Limits, t: State) returns (all: seq<Action>)
    requires Enabled(s, a) && Reaches(Next(s, a, l), more, l, t)
    ensures Reaches(s, all, l, t)
  {
    all := [a] + more;
    assert all[1..] == more;
  }

  // From s, with a call waiting on the first message, another that folds one message more
  // stores its summary first; then the first takes it back.
  lemma TakenBack(s: State, key: Key, text: string) returns (more: seq<Action>, u: State)
    requires var rows := Thread(s.store.messages, key);
      Numbered(rows) && |rows| == 3 && rows[0].tokens > 0 && key !in s.store.summaries &&
      s.jobs == map[0 := Waiting(key, None, rows[..1])]
    ensures Reaches(s, more, EAGER, u) && Enabled(u, Save(0, text))
    ensures var t := Next(u, Save(0, text), EAGER);
      && ThroughOf(Stored(u.store, key)) == 2 && ThroughOf(Stored(t.store, key)) == 1
      && VersionOf(Stored(t.store, key)) == 2 && |FoldedOf(Stored(t.store, key))| == 1
  {
    hide Reaches, Thread, Candidates;
    var rows := Thread(s.store.messages, key);
    EagerCandidates(s.store, key);
    var s1 := Next(s, Begin(1, key), EAGER);
    var s2 := Next(s1, Look(1), EAGER);
    u := Next(s2, Save(1, text), EAGER);
    NoMore(u, EAGER);
    more := OneMore(s2, Save(1, text), [], EAGER, u);
    more := OneMore(s1, Look(1), more, EAGER, u);
    more := OneMore(s, Begin(1, key), more, EAGER, u);
  }

  // So there is a run in which two calls fold the same message and the last to store moves
  // through_sequence back.
  lemma OverlapMovesBack(key: Key, text: string) returns (actions: seq<Action>, u: State)
    ensures Reaches(START, actions, EAGER, u) && Enabled(u, Save(0, text))
    ensures var t := Next(u, Save(0, text), EAGER);
      && ThroughOf(Stored(u.store, key)) == 2 && ThroughOf(Stored(t.store, key)) == 1
      && VersionOf(Stored(t.store, key)) == 2 && |FoldedOf(Stored(t.store, key))| == 1
  {
    hide Reaches, Candidates;
    var say := Message(key, "user", text);
    var s1 := Next(START, say, EAGER);
    var s2 := Next(s1, say, EAGER);
    Messages(START, key, text);
    Messages(s1, key, text);
    hide Thread, AddMessage;
    EagerCandidates(s2.store, key);
    var s3 := Next(s2, Begin(0, key), EAGER);
    var s4 := Next(s3, Look(0), EAGER);
    var s5 := Next(s4, say, EAGER);
    Messages(s4, key, text);
    assert Thread(s5.store.messages, key)[..1] == Thread(s4.store.messages, key)[..1];
    actions, u := TakenBack(s5, key, text);
    actions := OneMore(s4, say, actions, EAGER, u);
    actions := OneMore(s3, Look(0), actions, EAGER, u);
    actions := OneMore(s2, Begin(0, key), actions, EAGER, u);
    actions := OneMore(s1, say, actions, EAGER, u);
    actions := OneMore(START, say, actions, EAGER, u);
  }
}

module ConversationService {
  import opened ConversationMemory

  class Database {
    var messages: seq<Row>
    var summaries: map<Key, Summary>

    function Contents(): Store
      reads this
    {
      Store(messages, summaries)
    }

    constructor ()
      ensures Contents() == EMPTY
    {
      messages, summaries := [], map[];
    }

    method AddConversationMessage(key: Key, role: string, content: string)
      modifies this`messages
      ensures Contents() == AddMessage(old(Contents()), key, role, content)
    {
      var sequence := MaxSequence(Thread(messages, key)) + 1;
      messages := messages + [Row(key, sequence, role, content, EstimateTokens(content))];
    }

    // INSERT ... ON CONFLICT DO UPDATE.
    method SaveConversationSummary(key: Key, text: string, candidates: seq<Row>)
      requires candidates != []
      modifies this`summaries
      ensures Contents() == Fold(old(Contents()), key, candidates, text)
    {
      var through := candidates[|candidates| - 1].sequence;
      if key in summaries {
        var existing := summaries[key];
        summaries := summaries[key := Summary(existing.version + 1, through, text, existing.folded + [candidates])];
      } else {
        assert [] + [candidates] == [candidates];
        summaries := summaries[key := Summary(1, through, text, [candidates])];
      }
    }
  }

  class ConversationService {
    const database: Database
    const recentLimit: nat
    const tokenBudget: nat
    const summaryTriggerTokens: nat

    constructor (database: Database, recentLimit: nat, tokenBudget: nat, summaryTriggerTokens: nat)
      ensures this.database == database && Settings() == Limits(recentLimit, tokenBudget, summaryTriggerTokens)
    {
      this.database := database;
      this.recentLimit := recentLimit;
      this.tokenBudget := tokenBudget;
      this.summaryTriggerTokens := summaryTriggerTokens;
    }

    function Settings(): Limits { Limits(recentLimit, tokenBudget, summaryTriggerTokens) }

    // summary is what _summarize would return.
    method MaybeSummarize(key: Key, summary: string)
      modifies database
      ensures database.Contents() == ConversationMemory.MaybeSummarize(old(database.Contents()), key, Settings(), summary)
    {
      var through := if key in database.summaries then database.summaries[key].through else 0;
      var pending := ListAfter(database.Contents(), key, through, 1000);
      var pendingTokens := SumTokens(pending);
      if pendingTokens <= summaryTriggerTokens && |pending| <= recentLimit * 2 {
        return;
      }
      var candidates := DropLast(pending, recentLimit);
      if candidates == [] {
        return;
      }
      database.SaveConversationSummary(key, summary, candidates);
    }

    // answer is stripped of surrounding white space.
    method CompleteTurn(key: Key, answer: string, summary: string)
      modifies database
      ensures database.Contents() == ConversationMemory.CompleteTurn(old(database.Contents()), key, Settings(), answer, summary)
    {
      if answer != "" {
        database.AddConversationMessage(key, "assistant", answer);
      }
      MaybeSummarize(key, summary);
    }

    // The recent window, oldest first: the end of the rows read that Keeps describes, and
    // as long as a window cannot exceed the 1000 rows of a read, of the whole thread.
    method Context(key: Key) returns (recent: seq<Row>, used: nat)
      ensures var rows := ListLatest(database.Contents(), key, if recentLimit * 3 < 20 then 20 else recentLimit * 3);
        |recent| <= |rows| && recent == Suffix(rows, |recent|) && Keeps(rows, |recent|, Settings())
      ensures recentLimit <= 1000 ==>
        var rows := Thread(database.messages, key);
        |recent| <= |rows| && recent == Suffix(rows, |recent|) && Keeps(rows, |recent|, Settings())
      ensures used == SumTokens(recent)
    {
      hide SumTokens, Thread;
      var limit := if recentLimit * 3 < 20 then 20 else recentLimit * 3;
      var rows := ListLatest(database.Contents(), key, limit);
      var selected: seq<Row> := [];
      used := 0;
      assert Reversed([]) == Suffix(rows, 0);
      assert SumTokens([]) == 0 by { NoTokens(); }
      while |selected| < |rows|
        invariant |selected| <= |rows| && Reversed(selected) == Suffix(rows, |selected|)
        invariant used == SumTokens(Suffix(rows, |selected|))
        invariant |selected| >= 2 ==> |selected| <= recentLimit && used <= tokenBudget
        decreases |rows| - |selected|
      {
        var row := rows[|rows| - |selected| - 1];
        OneMoreToken(rows, |selected|);
        if selected != [] && (|selected| >= recentLimit || used + row.tokens > tokenBudget) {
          break;
        }
        ReversedSnoc(selected, row);
        assert Suffix(rows, |selected| + 1) == [row] + Suffix(rows, |selected|);
        selected := selected + [row];
        used := used + row.tokens;
      }
      recent := Reversed(selected);
      if recentLimit <= 1000 {
        RowLimitHarmless(Thread(database.messages, key), Clamp(1, limit, 1000), |selected|, Settings());
      }
    }

    static lemma NoTokens()
      ensures SumTokens([]) == 0
    {}

    static lemma OneMoreToken(rows: seq<Row>, k: nat)
      requires k < |rows|
      ensures SumTokens(Suffix(rows, k + 1)) == SumTokens(Suffix(rows, k)) + rows[|rows| - k - 1].tokens
    {
      assert Suffix(rows, k + 1)[1..] == Suffix(rows, k);
    }
  }
}
