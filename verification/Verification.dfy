/** The hash chain and the client that checks it. */
module Verification {
  import opened Ordering
  import opened Board
  import opened Adjudication
  import opened MovementTheorems
  import opened Retreats
  import opened Canonical

  /** Digests as free terms: two digests are equal only if they digest the same canonical form on top
      of the same previous digest. `Text` is any other string, such as the empty one. */
  datatype Hash = Digest(previous: Option<Hash>, canon: CanonState) | Text(text: string)

  /** Signatures as free terms: the only one that checks against a key and a hash is the one the key's
      holder makes of that hash. */
  datatype Signature = Signed(key: string, hash: Hash) | Forged(bytes: string)

  predicate Checks(key: string, signature: Signature, hash: Hash) {
    signature == Signed(key, hash)
  }

  function HashState(state: GameState, previous: Option<Hash>): Hash {
    Digest(previous, Canonicalize(state))
  }

  /** What travels as canonical state: a packed structure, possibly not in canonical order, or bytes
      that do not decode at all. */
  datatype Payload = Garbage | Packed(canon: CanonState)

  datatype MatchStart = MatchStart(payload: Payload, stateHash: Hash, signature: Signature)

  datatype PhaseResult = PhaseResult(
    phase: Phase, turn: int, year: int, payload: Payload, stateHash: Hash, previous: Option<Hash>, signature: Signature)

  datatype Reason = StartSignature | StartHash | BadSignature | BadHash | BrokenChain

  datatype Issue = Issue(index: nat, turn: int, phase: Phase, reason: Reason)

  datatype Report = Report(ok: bool, checked: nat, issues: seq<Issue>)

  predicate IsSpace(c: char) {
    c == ' ' || c == '\t' || c == '\n' || c == '\r' || c as int == 11 || c as int == 12
  }

  predicate IsHexDigit(c: char) {
    '0' <= c <= '9' || 'a' <= c <= 'f' || 'A' <= c <= 'F'
  }

  /** Pairs of hexadecimal digits, with spaces allowed around each pair. */
  predicate Hexadecimal(text: string) {
    if text == "" then true
    else if IsSpace(text[0]) then Hexadecimal(text[1..])
    else |text| >= 2 && IsHexDigit(text[0]) && IsHexDigit(text[1]) && Hexadecimal(text[2..])
  }

  const SPACES := {' ', '\t', '\n', '\r', '\U{B}', '\U{C}'}
  const DIGITS := {'0', '1', '2', '3', '4', '5', '6', '7', '8', '9',
                   'a', 'b', 'c', 'd', 'e', 'f', 'A', 'B', 'C', 'D', 'E', 'F'}

  lemma SpacesAndDigits(c: char)
    ensures IsSpace(c) <==> c in SPACES
    ensures IsHexDigit(c) <==> c in DIGITS
  {
  }

  /** One space character, or two hexadecimal digits. */
  ghost predicate HexPiece(piece: string) {
    || (|piece| == 1 && piece[0] in SPACES)
    || (|piece| == 2 && piece[0] in DIGITS && piece[1] in DIGITS)
  }

  ghost function Joined(pieces: seq<string>): string {
    if pieces == [] then "" else pieces[0] + Joined(pieces[1..])
  }

  lemma PieceExactly(piece: string)
    ensures HexPiece(piece) <==>
            (|piece| == 1 && IsSpace(piece[0])) || (|piece| == 2 && IsHexDigit(piece[0]) && IsHexDigit(piece[1]))
  {
    if |piece| > 0 { SpacesAndDigits(piece[0]); }
    if |piece| > 1 { SpacesAndDigits(piece[1]); }
  }

  lemma {:induction false} PiecesAreHexadecimal(pieces: seq<string>)
    requires forall piece :: piece in pieces ==> HexPiece(piece)
    ensures Hexadecimal(Joined(pieces))
  {
    if pieces != [] {
      PiecesAreHexadecimal(pieces[1..]);
      PieceExactly(pieces[0]);
      var text := Joined(pieces);
      assert text[|pieces[0]|..] == Joined(pieces[1..]);
    }
  }

  lemma {:induction false} HexadecimalInPieces(text: string) returns (pieces: seq<string>)
    requires Hexadecimal(text)
    ensures Joined(pieces) == text && forall piece :: piece in pieces ==> HexPiece(piece)
  {
    if text == "" {
      pieces := [];
    } else {
      var n := if IsSpace(text[0]) then 1 else 2;
      var rest := HexadecimalInPieces(text[n..]);
      PieceExactly(text[..n]);
      pieces := [text[..n]] + rest;
      assert text == text[..n] + text[n..];
    }
  }

  /** The texts read as bytes are exactly those made up of spaces and pairs of hexadecimal digits. */
  lemma HexadecimalExactly(text: string)
    ensures Hexadecimal(text) <==> exists pieces :: Joined(pieces) == text && forall piece :: piece in pieces ==> HexPiece(piece)
  {
    if Hexadecimal(text) {
      var pieces := HexadecimalInPieces(text);
    }
    if pieces :| Joined(pieces) == text && forall piece :: piece in pieces ==> HexPiece(piece) {
      PiecesAreHexadecimal(pieces);
    }
  }

  predicate Blank(text: string) {
    forall i :: 0 <= i < |text| ==> IsSpace(text[i])
  }

  /** A previous hash that denotes no bytes counts as none. */
  function Chained(previous: Option<Hash>): Option<Hash> {
    if previous.Some? && previous.value.Text? && Blank(previous.value.text) then None else previous
  }

  /** Reading the previous hash raises an error: it is neither empty nor hexadecimal. */
  predicate Unreadable(previous: Option<Hash>) {
    previous.Some? && previous.value.Text? && previous.value.text != "" && !Hexadecimal(previous.value.text)
  }

  /** Whether the hash is that of the payload; `None` stands for an error, raised only after the payload
      has decoded. */
  function CheckHash(payload: Payload, stateHash: Hash, previous: Option<Hash>): Option<bool> {
    if payload.Garbage? then Some(false)
    else if Unreadable(previous) then None
    else Some(HashState(Decode(payload.canon), Chained(previous)) == stateHash)
  }

  predicate HashMatches(payload: Payload, stateHash: Hash, previous: Option<Hash>) {
    CheckHash(payload, stateHash, previous) == Some(true)
  }

  predicate Raises(r: PhaseResult) {
    CheckHash(r.payload, r.stateHash, r.previous).None?
  }

  /** Checking a link raises an error exactly when its payload decodes, and its previous hash is a text that
      is not empty and not made up of spaces and pairs of hexadecimal digits. */
  lemma RaisesExactly(r: PhaseResult)
    ensures Raises(r) <==>
            && r.payload.Packed? && r.previous.Some? && r.previous.value.Text? && r.previous.value.text != ""
            && !exists pieces :: Joined(pieces) == r.previous.value.text && forall piece :: piece in pieces ==> HexPiece(piece)
  {
    if r.previous.Some? && r.previous.value.Text? {
      HexadecimalExactly(r.previous.value.text);
    }
  }

  /** A previous hash counts as none exactly when there is none, or a text of spaces only. */
  lemma ChainedExactly(previous: Option<Hash>)
    ensures Chained(previous) ==
            if previous.Some? && previous.value.Text? && forall c :: c in previous.value.text ==> c in SPACES then None else previous
  {
    if previous.Some? && previous.value.Text? {
      var text := previous.value.text;
      forall c ensures IsSpace(c) <==> c in SPACES { SpacesAndDigits(c); }
      if forall c :: c in text ==> c in SPACES {
        forall i | 0 <= i < |text| ensures IsSpace(text[i]) { assert text[i] in text; }
      }
    }
  }

  function Found(bad: bool, issue: Issue): seq<Issue> {
    if bad then [issue] else []
  }

  function StartIssues(key: string, start: MatchStart): seq<Issue> {
    Found(!Checks(key, start.signature, start.stateHash), Issue(0, 0, Phase.Diplomacy, StartSignature)) +
    Found(!HashMatches(start.payload, start.stateHash, None), Issue(0, 0, Phase.Diplomacy, StartHash))
  }

  /** The issues of one entry, given which of its checks failed. */
  function FoundOf(index: nat, turn: int, phase: Phase, signature: bool, hash: bool, chain: bool): seq<Issue> {
    Found(signature, Issue(index, turn, phase, BadSignature)) +
    Found(hash, Issue(index, turn, phase, BadHash)) +
    Found(chain, Issue(index, turn, phase, BrokenChain))
  }

  function LinkIssues(key: string, r: PhaseResult, index: nat, expected: Option<Hash>): seq<Issue> {
    FoundOf(index, r.turn, r.phase, !Checks(key, r.signature, r.stateHash),
            !HashMatches(r.payload, r.stateHash, r.previous), expected.Some? && r.previous != expected)
  }

  function LastHash(start: Option<MatchStart>, results: seq<PhaseResult>): Option<Hash> {
    if results != [] then Some(results[|results| - 1].stateHash)
    else if start.Some? then Some(start.value.stateHash)
    else None
  }

  /** Every failure of every link, in order. */
  function AllIssues(key: string, start: Option<MatchStart>, results: seq<PhaseResult>): seq<Issue> {
    if results == [] then (if start.Some? then StartIssues(key, start.value) else []) else
      var front := results[..|results| - 1];
      AllIssues(key, start, front) +
      LinkIssues(key, results[|results| - 1], |results|, LastHash(start, front))
  }

  method VerifyStart(key: string, start: MatchStart) returns (issues: seq<Issue>)
    ensures issues == StartIssues(key, start)
  {
    issues := [];
    if !Checks(key, start.signature, start.stateHash) {
      issues := issues + [Issue(0, 0, Phase.Diplomacy, StartSignature)];
    }
    if !HashMatches(start.payload, start.stateHash, None) {
      issues := issues + [Issue(0, 0, Phase.Diplomacy, StartHash)];
    }
  }

  /** One link's issues, or `None` for the error its previous hash raises. */
  method VerifyLink(key: string, r: PhaseResult, index: nat, previousHash: Option<Hash>) returns (issues: Option<seq<Issue>>)
    ensures issues == if Raises(r) then None else Some(LinkIssues(key, r, index, previousHash))
    ensures issues.Some? ==> forall issue :: issue in issues.value <==> LinkIssue(key, r, index, previousHash, issue)
  {
    LinkIssuesExactly(key, r, index, previousHash);
    var found := Found(!Checks(key, r.signature, r.stateHash), Issue(index, r.turn, r.phase, BadSignature));
    var matches := CheckHash(r.payload, r.stateHash, r.previous);
    if matches.None? {
      return None;
    }
    found := found + Found(!matches.value, Issue(index, r.turn, r.phase, BadHash));
    found := found + Found(previousHash.Some? && r.previous != previousHash, Issue(index, r.turn, r.phase, BrokenChain));
    issues := Some(found);
  }

  ghost predicate SomeRaises(results: seq<PhaseResult>) {
    exists i :: 0 <= i < |results| && Raises(results[i])
  }

  lemma SomeRaisesGrows(results: seq<PhaseResult>, i: nat)
    requires i < |results|
    ensures SomeRaises(results[..i + 1]) <==> SomeRaises(results[..i]) || Raises(results[i])
    ensures Raises(results[i]) ==> SomeRaises(results)
  {
    var front, longer := results[..i], results[..i + 1];
    assert longer[i] == results[i];
    assert forall k :: 0 <= k < i ==> front[k] == longer[k];
  }

  /** The client's report, or `None` for the error that a link raises. */
  method VerifyHistory(key: string, results: seq<PhaseResult>, start: Option<MatchStart>) returns (report: Option<Report>)
    ensures report.None? <==> SomeRaises(results)
    ensures report.Some? ==>
              && report.value.issues == AllIssues(key, start, results)
              && (report.value.ok <==> report.value.issues == [])
              && report.value.checked == |results| + (if start.Some? then 1 else 0)
              && (forall issue :: issue in report.value.issues <==> RealIssue(key, start, results, issue))
              && InPlace(report.value.issues)
  {
    var issues: seq<Issue> := [];
    var previousHash: Option<Hash> := None;
    var checked := 0;
    if start.Some? {
      issues := VerifyStart(key, start.value);
      previousHash := Some(start.value.stateHash);
      checked := 1;
    }
    for i := 0 to |results|
      invariant issues == AllIssues(key, start, results[..i])
      invariant previousHash == LastHash(start, results[..i])
      invariant checked == i + if start.Some? then 1 else 0
      invariant !SomeRaises(results[..i])
    {
      AllIssuesGrows(key, start, results, i);
      SomeRaisesGrows(results, i);
      var found := VerifyLink(key, results[i], i + 1, previousHash);
      if found.None? {
        return None;
      }
      issues := issues + found.value;
      previousHash := Some(results[i].stateHash);
      checked := checked + 1;
    }
    assert results[..|results|] == results;
    IssuesExactly(key, start, results);
    report := Some(Report(issues == [], checked, issues));
  }

  lemma AllIssuesGrows(key: string, start: Option<MatchStart>, results: seq<PhaseResult>, i: nat)
    requires i < |results|
    ensures AllIssues(key, start, results[..i + 1]) ==
            AllIssues(key, start, results[..i]) + LinkIssues(key, results[i], i + 1, LastHash(start, results[..i]))
    ensures LastHash(start, results[..i + 1]) == Some(results[i].stateHash)
  {
    assert results[..i + 1][..i] == results[..i];
  }

  // ---------------------------------------------------------------- what each issue means

  /** The hash the entry at `k` has to follow, if one is known. */
  function HashToFollow(start: Option<MatchStart>, results: seq<PhaseResult>, k: nat): Option<Hash>
    requires k < |results|
  {
    if k > 0 then Some(results[k - 1].stateHash)
    else if start.Some? then Some(start.value.stateHash)
    else None
  }

  ghost predicate AnchorIssue(key: string, start: MatchStart, issue: Issue) {
    && issue.index == 0 && issue.turn == 0 && issue.phase == Phase.Diplomacy
    && match issue.reason
       case StartSignature => start.signature != Signed(key, start.stateHash)
       case StartHash => start.payload.Garbage? || Digest(None, Canonicalize(Decode(start.payload.canon))) != start.stateHash
       case _ => false
  }

  ghost predicate WrongHash(r: PhaseResult) {
    || r.payload.Garbage? || Unreadable(r.previous)
    || Digest(Chained(r.previous), Canonicalize(Decode(r.payload.canon))) != r.stateHash
  }

  ghost predicate LinkIssue(key: string, r: PhaseResult, index: nat, before: Option<Hash>, issue: Issue) {
    && issue.index == index && issue.turn == r.turn && issue.phase == r.phase
    && match issue.reason
       case BadSignature => r.signature != Signed(key, r.stateHash)
       case BadHash => WrongHash(r)
       case BrokenChain => before.Some? && r.previous != before
       case _ => false
  }

  /** What there is to complain about, entry by entry: index 0 is the anchor, index k + 1 the k-th result. */
  ghost predicate RealIssue(key: string, start: Option<MatchStart>, results: seq<PhaseResult>, issue: Issue) {
    if issue.index == 0 then start.Some? && AnchorIssue(key, start.value, issue)
    else issue.index <= |results| &&
         LinkIssue(key, results[issue.index - 1], issue.index, HashToFollow(start, results, issue.index - 1), issue)
  }

  function PlaceOf(issue: Issue): nat {
    3 * issue.index + match issue.reason
                      case StartSignature => 0
                      case BadSignature => 0
                      case StartHash => 1
                      case BadHash => 1
                      case BrokenChain => 2
  }

  /** By entry, and within an entry signature, hash, chain; nothing twice. */
  ghost predicate InPlace(issues: seq<Issue>) {
    forall i, j :: 0 <= i < j < |issues| ==> PlaceOf(issues[i]) < PlaceOf(issues[j])
  }

  lemma AnchorIssuesExactly(key: string, start: MatchStart)
    ensures forall issue :: issue in StartIssues(key, start) <==> AnchorIssue(key, start, issue)
    ensures InPlace(StartIssues(key, start))
  {
    var issues := StartIssues(key, start);
    forall issue ensures issue in issues <==> AnchorIssue(key, start, issue) {
      assert issue in issues <==>
        || (issue == Issue(0, 0, Phase.Diplomacy, StartSignature) && !Checks(key, start.signature, start.stateHash))
        || (issue == Issue(0, 0, Phase.Diplomacy, StartHash) && !HashMatches(start.payload, start.stateHash, None));
    }
  }

  lemma FoundExactly(index: nat, turn: int, phase: Phase, signature: bool, hash: bool, chain: bool, issue: Issue)
    ensures issue in FoundOf(index, turn, phase, signature, hash, chain) <==>
            && issue.index == index && issue.turn == turn && issue.phase == phase
            && match issue.reason
               case BadSignature => signature
               case BadHash => hash
               case BrokenChain => chain
               case _ => false
    ensures InPlace(FoundOf(index, turn, phase, signature, hash, chain))
  {
  }

  lemma WrongHashExactly(r: PhaseResult)
    ensures HashMatches(r.payload, r.stateHash, r.previous) <==> !WrongHash(r)
  {
  }

  lemma LinkIssuesFound(key: string, r: PhaseResult, index: nat, before: Option<Hash>)
    ensures LinkIssues(key, r, index, before) ==
            FoundOf(index, r.turn, r.phase, r.signature != Signed(key, r.stateHash), WrongHash(r), before.Some? && r.previous != before)
  {
    WrongHashExactly(r);
  }

  lemma LinkIssuesExactly(key: string, r: PhaseResult, index: nat, before: Option<Hash>)
    ensures forall issue :: issue in LinkIssues(key, r, index, before) <==> LinkIssue(key, r, index, before, issue)
    ensures InPlace(LinkIssues(key, r, index, before))
  {
    var signature, chain := r.signature != Signed(key, r.stateHash), before.Some? && r.previous != before;
    LinkIssuesFound(key, r, index, before);
    forall issue ensures issue in LinkIssues(key, r, index, before) <==> LinkIssue(key, r, index, before, issue) {
      FoundExactly(index, r.turn, r.phase, signature, WrongHash(r), chain, issue);
    }
    FoundExactly(index, r.turn, r.phase, signature, WrongHash(r), chain, Issue(index, r.turn, r.phase, BadHash));
  }

  lemma RealIssueGrows(key: string, start: Option<MatchStart>, front: seq<PhaseResult>, last: PhaseResult, issue: Issue)
    ensures RealIssue(key, start, front + [last], issue) <==>
            || RealIssue(key, start, front, issue)
            || LinkIssue(key, last, |front| + 1, LastHash(start, front), issue)
  {
    var results := front + [last];
    assert HashToFollow(start, results, |front|) == LastHash(start, front);
    if 0 < issue.index <= |front| {
      assert results[issue.index - 1] == front[issue.index - 1];
      assert HashToFollow(start, results, issue.index - 1) == HashToFollow(start, front, issue.index - 1);
    }
  }

  lemma InPlaceAppend(s: seq<Issue>, t: seq<Issue>, index: nat)
    requires InPlace(s) && InPlace(t)
    requires (forall issue :: issue in s ==> issue.index < index) && (forall issue :: issue in t ==> issue.index == index)
    ensures InPlace(s + t)
  {
    forall i, j | 0 <= i < j < |s + t| ensures PlaceOf((s + t)[i]) < PlaceOf((s + t)[j]) {
      if i < |s| <= j { assert s[i] in s && t[j - |s|] in t; }
    }
  }

  /** The issues found are exactly the real ones, in order: each entry's signature, hash and chain are
      reported for what they are, under that entry's own index, turn and phase, and nothing else is. */
  lemma {:induction false} IssuesExactly(key: string, start: Option<MatchStart>, results: seq<PhaseResult>)
    ensures forall issue :: issue in AllIssues(key, start, results) <==> RealIssue(key, start, results, issue)
    ensures InPlace(AllIssues(key, start, results))
    decreases |results|
  {
    if results == [] {
      if start.Some? { AnchorIssuesExactly(key, start.value); }
    } else {
      var front, last := results[..|results| - 1], results[|results| - 1];
      assert results == front + [last];
      IssuesExactly(key, start, front);
      LinkIssuesExactly(key, last, |results|, LastHash(start, front));
      InPlaceAppend(AllIssues(key, start, front), LinkIssues(key, last, |results|, LastHash(start, front)), |results|);
      forall issue ensures issue in AllIssues(key, start, results) <==> RealIssue(key, start, results, issue) {
        RealIssueGrows(key, start, front, last, issue);
      }
    }
  }

  // ---------------------------------------------------------------- what a clean report means

  /** The anchor and every link are signed, hash to what they claim, and follow one another. */
  ghost predicate GoodHistory(key: string, start: Option<MatchStart>, results: seq<PhaseResult>) {
    && (start.Some? ==> Checks(key, start.value.signature, start.value.stateHash) &&
                        HashMatches(start.value.payload, start.value.stateHash, None))
    && (forall i :: 0 <= i < |results| ==> GoodAt(key, start, results, i))
  }

  ghost predicate GoodAt(key: string, start: Option<MatchStart>, results: seq<PhaseResult>, i: nat)
    requires i < |results|
  {
    GoodLink(key, results[i]) && Follows(start, results, i)
  }

  ghost predicate GoodLink(key: string, r: PhaseResult) {
    Checks(key, r.signature, r.stateHash) && HashMatches(r.payload, r.stateHash, r.previous)
  }

  ghost predicate Follows(start: Option<MatchStart>, results: seq<PhaseResult>, i: nat)
    requires i < |results|
  {
    if i > 0 then results[i].previous == Some(results[i - 1].stateHash)
    else start.Some? ==> results[i].previous == Some(start.value.stateHash)
  }

  lemma GoodAtGrows(key: string, start: Option<MatchStart>, front: seq<PhaseResult>, last: PhaseResult, i: nat)
    requires i < |front|
    ensures GoodAt(key, start, front + [last], i) == GoodAt(key, start, front, i)
  {
  }

  lemma GoodHistoryGrows(key: string, start: Option<MatchStart>, front: seq<PhaseResult>, last: PhaseResult)
    ensures GoodHistory(key, start, front + [last]) <==>
            GoodHistory(key, start, front) && GoodAt(key, start, front + [last], |front|)
  {
    var results := front + [last];
    forall i | 0 <= i < |front| ensures GoodAt(key, start, results, i) == GoodAt(key, start, front, i) {
      GoodAtGrows(key, start, front, last, i);
    }
  }

  lemma LinkIsClean(key: string, start: Option<MatchStart>, front: seq<PhaseResult>, last: PhaseResult)
    ensures LinkIssues(key, last, |front| + 1, LastHash(start, front)) == [] <==>
            GoodAt(key, start, front + [last], |front|)
  {
  }

  lemma StartIsClean(key: string, start: MatchStart)
    ensures StartIssues(key, start) == [] <==> GoodHistory(key, Some(start), [])
  {
  }

  /** There are no issues exactly for a good history, none of whose links raises an error. */
  lemma {:induction false} CleanExactlyWhenGood(key: string, start: Option<MatchStart>, results: seq<PhaseResult>)
    ensures AllIssues(key, start, results) == [] <==> GoodHistory(key, start, results)
    decreases |results|
  {
    if results == [] {
      if start.Some? { StartIsClean(key, start.value); }
    } else {
      var front, last := results[..|results| - 1], results[|results| - 1];
      assert results == front + [last];
      CleanExactlyWhenGood(key, start, front);
      LinkIsClean(key, start, front, last);
      GoodHistoryGrows(key, start, front, last);
    }
  }

  /** No link of a good history raises an error, so its report is there, and clean. */
  lemma GoodNeverRaises(key: string, start: Option<MatchStart>, results: seq<PhaseResult>)
    requires GoodHistory(key, start, results)
    ensures !SomeRaises(results) && AllIssues(key, start, results) == []
  {
    CleanExactlyWhenGood(key, start, results);
    forall i | 0 <= i < |results| ensures !Raises(results[i]) {
      assert GoodAt(key, start, results, i);
    }
  }

  /** Any contiguous part of a good history is good without its anchor. */
  lemma SegmentIsGood(key: string, start: Option<MatchStart>, results: seq<PhaseResult>, i: nat, j: nat)
    requires GoodHistory(key, start, results) && i <= j <= |results|
    ensures GoodHistory(key, None, results[i..j])
  {
    forall k | 0 <= k < j - i ensures GoodAt(key, None, results[i..j], k) {
      assert GoodAt(key, start, results, i + k);
    }
  }

  // ---------------------------------------------------------------- tamper evidence

  function StateAt(start: MatchStart, results: seq<PhaseResult>, i: nat): Option<GameState>
    requires i <= |results|
  {
    var payload := if i == 0 then start.payload else results[i - 1].payload;
    if payload.Packed? then Some(Decode(payload.canon)) else None
  }

  function HashAt(start: MatchStart, results: seq<PhaseResult>, i: nat): Hash
    requires i <= |results|
  {
    if i == 0 then start.stateHash else results[i - 1].stateHash
  }

  function HashBefore(start: MatchStart, results: seq<PhaseResult>, i: nat): Option<Hash>
    requires i <= |results|
  {
    if i == 0 then None else Some(HashAt(start, results, i - 1))
  }

  lemma GoodEntry(key: string, start: MatchStart, results: seq<PhaseResult>, i: nat)
    requires GoodHistory(key, Some(start), results) && i <= |results|
    ensures StateAt(start, results, i).Some?
    ensures HashAt(start, results, i) == HashState(StateAt(start, results, i).value, HashBefore(start, results, i))
    ensures HashAt(start, results, i).Digest?
  {
    if i > 0 {
      GoodEntry(key, start, results, i - 1);
      assert GoodAt(key, Some(start), results, i - 1);
    }
  }

  lemma OneHashOneState(x: GameState, p: Option<Hash>, y: GameState, q: Option<Hash>)
    requires HashState(x, p) == HashState(y, q)
    ensures p == q && SameBoard(x, y)
  {
    CanonicalExactly(x, y);
  }

  /** Entry `k` of the two histories carries one hash and one board. */
  ghost predicate Agree(s: MatchStart, rs: seq<PhaseResult>, t: MatchStart, qs: seq<PhaseResult>, k: nat) {
    && k <= |rs| && k <= |qs| && HashAt(s, rs, k) == HashAt(t, qs, k)
    && StateAt(s, rs, k).Some? && StateAt(t, qs, k).Some?
    && SameBoard(StateAt(s, rs, k).value, StateAt(t, qs, k).value)
  }

  /** One hash at entries `i` and `j` means one board there and one hash before. */
  ghost predicate StepsBack(s: MatchStart, rs: seq<PhaseResult>, i: nat, t: MatchStart, qs: seq<PhaseResult>, j: nat)
    requires i <= |rs| && j <= |qs|
  {
    HashAt(s, rs, i) == HashAt(t, qs, j) ==>
      && (i == 0 <==> j == 0)
      && (i > 0 ==> HashAt(s, rs, i - 1) == HashAt(t, qs, j - 1))
      && (i == j ==> Agree(s, rs, t, qs, i))
  }

  lemma GoodHistoriesStepBack(key: string, s: MatchStart, rs: seq<PhaseResult>, i: nat, t: MatchStart, qs: seq<PhaseResult>, j: nat)
    requires GoodHistory(key, Some(s), rs) && GoodHistory(key, Some(t), qs)
    requires i <= |rs| && j <= |qs|
    ensures StepsBack(s, rs, i, t, qs, j)
  {
    if HashAt(s, rs, i) == HashAt(t, qs, j) {
      GoodEntry(key, s, rs, i);
      GoodEntry(key, t, qs, j);
      var x, y := StateAt(s, rs, i).value, StateAt(t, qs, j).value;
      OneHashOneState(x, HashBefore(s, rs, i), y, HashBefore(t, qs, j));
      assert SameBoard(x, y);
    }
  }

  lemma {:induction false} AgreeBackTo(s: MatchStart, rs: seq<PhaseResult>, i: nat, t: MatchStart, qs: seq<PhaseResult>, j: nat, k: nat)
    requires forall i: nat, j: nat :: i <= |rs| && j <= |qs| ==> StepsBack(s, rs, i, t, qs, j)
    requires i <= |rs| && j <= |qs| && HashAt(s, rs, i) == HashAt(t, qs, j)
    ensures i == j && (k <= i ==> Agree(s, rs, t, qs, k))
    decreases i
  {
    assert StepsBack(s, rs, i, t, qs, j);
    if i > 0 {
      AgreeBackTo(s, rs, i - 1, t, qs, j - 1, k);
    }
  }

  lemma AgreeEverywhere(s: MatchStart, rs: seq<PhaseResult>, t: MatchStart, qs: seq<PhaseResult>)
    requires forall i: nat, j: nat :: i <= |rs| && j <= |qs| ==> StepsBack(s, rs, i, t, qs, j)
    requires HashAt(s, rs, |rs|) == HashAt(t, qs, |qs|)
    ensures |rs| == |qs|
    ensures forall k: nat :: k <= |rs| ==> Agree(s, rs, t, qs, k)
  {
    AgreeBackTo(s, rs, |rs|, t, qs, |qs|, 0);
    forall k: nat | k <= |rs| ensures Agree(s, rs, t, qs, k) {
      AgreeBackTo(s, rs, |rs|, t, qs, |qs|, k);
    }
  }

  /** Two anchored histories that both check and end in the same hash agree at every entry: no past
      state can be altered, inserted or dropped without changing the last hash. */
  lemma HistoriesWithOneEnd(key: string, s: MatchStart, rs: seq<PhaseResult>, t: MatchStart, qs: seq<PhaseResult>)
    requires GoodHistory(key, Some(s), rs) && GoodHistory(key, Some(t), qs)
    requires HashAt(s, rs, |rs|) == HashAt(t, qs, |qs|)
    ensures |rs| == |qs|
    ensures forall k: nat :: k <= |rs| ==> Agree(s, rs, t, qs, k)
  {
    forall i: nat, j: nat | i <= |rs| && j <= |qs| ensures StepsBack(s, rs, i, t, qs, j) {
      GoodHistoriesStepBack(key, s, rs, i, t, qs, j);
    }
    AgreeEverywhere(s, rs, t, qs);
  }

  /** Tamper evidence in terms of the client's own reports. */
  lemma TamperEvidence(key: string, s: MatchStart, rs: seq<PhaseResult>, t: MatchStart, qs: seq<PhaseResult>)
    requires AllIssues(key, Some(s), rs) == [] && AllIssues(key, Some(t), qs) == []
    requires LastHash(Some(s), rs) == LastHash(Some(t), qs)
    ensures |rs| == |qs|
    ensures forall k: nat :: k <= |rs| ==> Agree(s, rs, t, qs, k)
  {
    CleanExactlyWhenGood(key, Some(s), rs);
    CleanExactlyWhenGood(key, Some(t), qs);
    HistoriesWithOneEnd(key, s, rs, t, qs);
  }

  // ---------------------------------------------------------------- what is outside the protection

  function Relabelled(r: PhaseResult, phase: Phase, turn: int, year: int): PhaseResult {
    r.(phase := phase, turn := turn, year := year)
  }

  /** The phase, turn and year a result is labelled with are neither hashed nor signed: with any labels at
      all on any link a history is exactly as good as before, and carries the same boards and hashes. */
  lemma LabelsAreUnprotected(key: string, start: Option<MatchStart>, results: seq<PhaseResult>, i: nat, phase: Phase, turn: int, year: int)
    requires i < |results|
    ensures GoodHistory(key, start, results[i := Relabelled(results[i], phase, turn, year)]) <==> GoodHistory(key, start, results)
    ensures start.Some? ==> forall k: nat :: k <= |results| ==>
              var other := results[i := Relabelled(results[i], phase, turn, year)];
              StateAt(start.value, other, k) == StateAt(start.value, results, k) && HashAt(start.value, other, k) == HashAt(start.value, results, k)
  {
    var other := results[i := Relabelled(results[i], phase, turn, year)];
    forall k | 0 <= k < |results| ensures GoodAt(key, start, other, k) == GoodAt(key, start, results, k) {
      SameButLabels(key, start, results, other, k);
    }
  }

  lemma SameButLabels(key: string, start: Option<MatchStart>, results: seq<PhaseResult>, other: seq<PhaseResult>, k: nat)
    requires |other| == |results| && k < |results|
    requires forall j :: 0 <= j < |results| ==> other[j] == Relabelled(results[j], other[j].phase, other[j].turn, other[j].year)
    ensures GoodAt(key, start, other, k) == GoodAt(key, start, results, k)
  {
    assert other[k] == Relabelled(results[k], other[k].phase, other[k].turn, other[k].year);
    if k > 0 { assert other[k - 1] == Relabelled(results[k - 1], other[k - 1].phase, other[k - 1].turn, other[k - 1].year); }
  }

  // ---------------------------------------------------------------- chains of bare hashes

  ghost predicate Chains(states: seq<GameState>, hashes: seq<Hash>, i: nat)
    requires i < |states| && i < |hashes|
  {
    hashes[i] == HashState(states[i], if i == 0 then None else Some(hashes[i - 1]))
  }

  method VerifyChain(states: seq<GameState>, hashes: seq<Hash>) returns (ok: bool)
    ensures ok <==> |states| == |hashes| && forall i :: 0 <= i < |states| ==> Chains(states, hashes, i)
  {
    if |states| != |hashes| {
      return false;
    }
    var previous: Option<Hash> := None;
    for i := 0 to |states|
      invariant previous == if i == 0 then None else Some(hashes[i - 1])
      invariant forall k :: 0 <= k < i ==> Chains(states, hashes, k)
    {
      if HashState(states[i], previous) != hashes[i] {
        assert !Chains(states, hashes, i);
        return false;
      }
      assert Chains(states, hashes, i);
      previous := Some(hashes[i]);
    }
    return true;
  }

  // ---------------------------------------------------------------- re-adjudication

  function AfterOrders(adj: Adjacency, pre: GameState, orders: map<Id, Order>): GameState {
    UpdateOwnership(ApplyMovement(pre, MovementOutcome(adj, pre, orders)))
  }

  method ReproduceAndCompare(adj: Adjacency, pre: GameState, orders: map<Id, Order>, claimed: GameState)
    returns (matches: bool, computed: GameState)
    ensures computed == AfterOrders(adj, pre, orders)
    ensures matches <==> HashState(computed, None) == HashState(claimed, None)
  {
    var result := ResolveMovement(adj, pre, orders);
    computed := ApplyMovement(pre, result);
    computed := UpdateSupplyCenterOwnership(computed);
    matches := HashState(computed, None) == HashState(claimed, None);
  }

  /** The comparison accepts exactly the claims that are the re-adjudicated board. */
  lemma ReproductionIsExact(computed: GameState, claimed: GameState)
    ensures HashState(computed, None) == HashState(claimed, None) <==> SameBoard(computed, claimed)
  {
    CanonicalExactly(computed, claimed);
  }
}
