/**
 * Message selection of components/platform/email/email.go: the UID range
 * `count:*` fetched by GetEmails, the subject, sender and time tests of
 * filterTags, FilterEmailsByTag and AggregateEmailBody.
 *
 * The IMAP client is abstracted: a mailbox is the sequence of its messages
 * in ascending UID order, and a fetch returns a part of that sequence.
 */
module Email {
  import opened Wrappers

  /** A message as the IMAP client returns it; `sent == 0` stands for Go's zero time. */
  datatype Message = Message(uid: int, subject: string, from: seq<string>, sent: int, text: string)

  datatype FilterError =
    | NoTagsProvided                   // "no tags provided"
    | NoEmailsWithTags(tags: seq<string>)  // "no emails found with tags: [...]"

  /** IMAP UIDs are positive and strictly ascending within a mailbox. */
  ghost predicate Ascending(box: seq<Message>) {
    && (forall i :: 0 <= i < |box| ==> 0 < box[i].uid)
    && (forall i, j :: 0 <= i < j < |box| ==> box[i].uid < box[j].uid)
  }

  ghost predicate DistinctUids(msgs: seq<Message>) {
    forall i, j :: 0 <= i < j < |msgs| ==> msgs[i].uid != msgs[j].uid
  }

  function Uids(msgs: seq<Message>): seq<int> {
    seq(|msgs|, i requires 0 <= i < |msgs| => msgs[i].uid)
  }

  function Min(a: int, b: int): int {
    if a <= b then a else b
  }

  // ---------------------------------------------------------------------
  // GetEmails: the range count:*
  // ---------------------------------------------------------------------

  /** The position of the first message of an ascending mailbox whose UID is at least `lo`. */
  function FirstAtLeast(box: seq<Message>, lo: int): (k: nat)
    requires Ascending(box)
    ensures k <= |box|
    ensures forall i :: 0 <= i < |box| ==> (k <= i <==> lo <= box[i].uid)
  {
    if box == [] || lo <= box[0].uid then 0 else 1 + FirstAtLeast(box[1..], lo)
  }

  /**
   * The messages GetEmails fetches for `count:*`, taking the IMAP client to
   * read that set as UIDs.  Read as UIDs, section 6.4.8 of RFC 3501 makes
   * `*` the highest UID in use and lets the two bounds of a range come in
   * either order, so the range holds every UID from `count` on and always
   * the highest one, even when `count` is above it.
   */
  function GetEmails(box: seq<Message>, count: int): seq<Message>
    requires Ascending(box)
  {
    if box == [] then [] else box[FirstAtLeast(box, Min(count, box[|box| - 1].uid))..]
  }

  /**
   * GetEmails returns a suffix of the mailbox: the messages whose UID is at
   * least `count`, and always the newest one, so a mark equal to a UID
   * fetches that message again.
   */
  lemma GetEmailsRange(box: seq<Message>, count: int)
    requires Ascending(box)
    ensures var r := GetEmails(box, count);
      && |r| <= |box|
      && (forall i :: 0 <= i < |r| ==> r[i] == box[|box| - |r| + i])
      && (forall i :: 0 <= i < |box| ==> (|box| - |r| <= i <==> (count <= box[i].uid || i == |box| - 1)))
      && (box != [] ==> r != [] && r[|r| - 1] == box[|box| - 1] && r[|r| - 1].uid > 0)
  {
    if box != [] {
      var n := |box| - 1;
      var lo := Min(count, box[n].uid);
      var k := FirstAtLeast(box, lo);
      assert k <= n;
      forall i | 0 <= i < |box|
        ensures k <= i <==> (count <= box[i].uid || i == n)
      {
        if i < n {
          assert box[i].uid < box[n].uid;
        }
      }
    }
  }

  /**
   * Section 6.4.8 of RFC 3501: the range "count:*" holds every message whose
   * UID is at least count, and always the newest one.
   */
  lemma GetEmailsMembers(box: seq<Message>, count: int)
    requires Ascending(box)
    ensures forall i :: 0 <= i < |box| ==>
      (box[i] in GetEmails(box, count) <==> count <= box[i].uid || i == |box| - 1)
  {
    var r := GetEmails(box, count);
    GetEmailsRange(box, count);
    var d := |box| - |r|;
    assert r == box[d..];
    SuffixMembers(box, d);
  }

  /** In an ascending mailbox a message is in a suffix exactly when its index is. */
  lemma SuffixMembers(box: seq<Message>, d: int)
    requires Ascending(box) && 0 <= d <= |box|
    ensures forall i :: 0 <= i < |box| ==> (box[i] in box[d..] <==> d <= i)
  {
    forall i | 0 <= i < |box| && box[i] in box[d..]
      ensures d <= i
    {
      var k :| 0 <= k < |box| - d && box[d..][k] == box[i];
      assert box[d + k].uid == box[i].uid;
    }
    forall i | 0 <= i < |box| && d <= i
      ensures box[i] in box[d..]
    {
      assert box[d..][i - d] == box[i];
    }
  }

  /** For a non-empty mailbox GetEmails always returns the newest message, last. */
  lemma GetEmailsNewest(box: seq<Message>, count: int)
    requires Ascending(box) && box != []
    ensures var r := GetEmails(box, count);
      r != [] && r[|r| - 1] == box[|box| - 1] && r[|r| - 1].uid > 0
  {
    var n := |box| - 1;
    assert FirstAtLeast(box, Min(count, box[n].uid)) <= n;
  }

  /** What GetEmails returns is again ascending, so its UIDs are distinct. */
  lemma GetEmailsAscending(box: seq<Message>, count: int)
    requires Ascending(box)
    ensures Ascending(GetEmails(box, count)) && DistinctUids(GetEmails(box, count))
  {
  }

  // ---------------------------------------------------------------------
  // The per-message tests
  // ---------------------------------------------------------------------

  function LowerChar(c: char): char {
    if 'A' <= c <= 'Z' then (c as int + 32) as char else c
  }

  /** strings.ToLower, restricted to ASCII letters. */
  function ToLower(s: string): string {
    seq(|s|, i requires 0 <= i < |s| => LowerChar(s[i]))
  }

  /** strings.Contains: `sub` occurs in `s`; the empty string occurs in every string. */
  predicate Contains(s: string, sub: string) {
    exists i :: 0 <= i <= |s| - |sub| && OccursAt(s, sub, i)
  }

  predicate OccursAt(s: string, sub: string, i: int) {
    0 <= i <= |s| - |sub| && s[i..i + |sub|] == sub
  }

  /**
   * getSender: some address of the From set, or "" and an error when it is
   * empty.  The source ranges over a Go map, so which address comes first
   * is unspecified; the model takes the first of the sequence.
   */
  function GetSender(from: seq<string>): (r: (string, Option<string>))
    ensures r.1 == None <==> from != []
    ensures from != [] ==> r.0 in from
    ensures from == [] ==> r.0 == ""
  {
    if from == [] then ("", Some("no sender found")) else (from[0], None)
  }

  /** The address the blacklist is compared with. */
  function SenderAddress(m: Message): string {
    GetSender(m.from).0
  }

  predicate Blacklisted(m: Message, blackList: seq<string>) {
    exists k :: 0 <= k < |blackList| && blackList[k] == SenderAddress(m)
  }

  /** checkBlackListSenders: true as soon as an entry equals the sender's address. */
  method CheckBlackListSenders(m: Message, blackList: seq<string>) returns (b: bool)
    ensures b <==> exists k :: 0 <= k < |blackList| && blackList[k] == SenderAddress(m)
    ensures blackList == [] ==> !b
  {
    for k := 0 to |blackList|
      invariant forall j :: 0 <= j < k ==> blackList[j] != SenderAddress(m)
    {
      var (address, err) := GetSender(m.from);
      if address == blackList[k] {
        return true;
      }
    }
    return false;
  }

  /** checkTime: every message passes when the start time is zero, otherwise only later ones. */
  predicate CheckTime(m: Message, start: int): (ok: bool)
    ensures start == 0 ==> ok
    ensures start != 0 && m.sent == start ==> !ok
  {
    start == 0 || m.sent > start
  }

  /**
   * Moving a non-zero start time later only drops messages; a message sent
   * exactly at the start is not after it.
   */
  lemma CheckTimeLaterStart(m: Message, early: int, late: int)
    requires 0 < early <= late
    ensures CheckTime(m, late) ==> CheckTime(m, early)
    ensures !CheckTime(m, early) ==> !CheckTime(m, late)
    ensures CheckTime(m, early) && !CheckTime(m, late) ==> early < m.sent <= late
  {
  }

  predicate TagMatches(subject: string, tag: string) {
    Contains(ToLower(subject), ToLower(tag))
  }

  /** The sender and time conditions of filterTags, which do not depend on the tag. */
  predicate Admitted(m: Message, blackList: seq<string>, start: int) {
    !Blacklisted(m, blackList) && CheckTime(m, start)
  }

  /** The condition under which filterTags appends `m`'s UID for `tag`. */
  predicate Selected(m: Message, tag: string, blackList: seq<string>, start: int) {
    TagMatches(m.subject, tag) && Admitted(m, blackList, start)
  }

  // ---------------------------------------------------------------------
  // filterTags
  // ---------------------------------------------------------------------

  /** The UIDs filterTags appends for one message while it walks `tags`. */
  function Hits(m: Message, tags: seq<string>, blackList: seq<string>, start: int): seq<int> {
    if tags == [] then []
    else
      Hits(m, tags[..|tags| - 1], blackList, start) +
      (if Selected(m, tags[|tags| - 1], blackList, start) then [m.uid] else [])
  }

  /** The UIDs filterTags returns for `msgs`, in the order it visits them. */
  function Filtered(msgs: seq<Message>, tags: seq<string>, blackList: seq<string>, start: int): seq<int> {
    if msgs == [] then []
    else Filtered(msgs[..|msgs| - 1], tags, blackList, start) + Hits(msgs[|msgs| - 1], tags, blackList, start)
  }

  /** The number of tags whose lower-case form occurs in the lower-cased subject. */
  function MatchCount(subject: string, tags: seq<string>): nat {
    if tags == [] then 0
    else MatchCount(subject, tags[..|tags| - 1]) + (if TagMatches(subject, tags[|tags| - 1]) then 1 else 0)
  }

  /**
   * filterTags.  The source walks a Go map of messages, whose order is
   * unspecified; the model walks them in the order given.
   */
  method FilterTags(msgs: seq<Message>, tags: seq<string>, blackList: seq<string>, start: int)
    returns (r: Result<seq<int>, FilterError>)
    ensures tags == [] ==> r == Failure(NoTagsProvided)
    ensures tags != [] ==> r == Success(Filtered(msgs, tags, blackList, start))
  {
    if |tags| == 0 {
      return Failure(NoTagsProvided);
    }
    var uids: seq<int> := [];
    for i := 0 to |msgs|
      invariant uids == Filtered(msgs[..i], tags, blackList, start)
    {
      var m := msgs[i];
      for j := 0 to |tags|
        invariant uids == Filtered(msgs[..i], tags, blackList, start) + Hits(m, tags[..j], blackList, start)
      {
        var lowerTag := ToLower(tags[j]);
        var lowerSubject := ToLower(m.subject);
        if Contains(lowerSubject, lowerTag) {
          var black := CheckBlackListSenders(m, blackList);
          if !black && CheckTime(m, start) {
            uids := uids + [m.uid];
          }
        }
        assert tags[..j + 1][..j] == tags[..j];
      }
      assert tags[..|tags|] == tags;
      assert msgs[..i + 1][..i] == msgs[..i];
    }
    assert msgs[..|msgs|] == msgs;
    return Success(uids);
  }

  lemma {:induction false} HitsCount(m: Message, tags: seq<string>, blackList: seq<string>, start: int, u: int)
    ensures multiset(Hits(m, tags, blackList, start))[u] ==
      if u == m.uid && Admitted(m, blackList, start) then MatchCount(m.subject, tags) else 0
    decreases |tags|
  {
    if tags != [] {
      HitsCount(m, tags[..|tags| - 1], blackList, start, u);
    }
  }

  /**
   * A message's UID occurs in filterTags' output once per tag (counted with
   * repetition) that occurs in its subject, provided the sender and time
   * tests pass, and not at all otherwise.
   */
  lemma {:induction false} FilteredCount(msgs: seq<Message>, tags: seq<string>, blackList: seq<string>, start: int, k: int)
    requires DistinctUids(msgs) && 0 <= k < |msgs|
    ensures multiset(Filtered(msgs, tags, blackList, start))[msgs[k].uid] ==
      if Admitted(msgs[k], blackList, start) then MatchCount(msgs[k].subject, tags) else 0
    decreases |msgs|
  {
    var n := |msgs| - 1;
    var u := msgs[k].uid;
    HitsCount(msgs[n], tags, blackList, start, u);
    if k < n {
      FilteredCount(msgs[..n], tags, blackList, start, k);
    } else {
      FilteredAbsent(msgs[..n], tags, blackList, start, u);
    }
  }

  lemma {:induction false} FilteredAbsent(msgs: seq<Message>, tags: seq<string>, blackList: seq<string>, start: int, u: int)
    requires forall i :: 0 <= i < |msgs| ==> msgs[i].uid != u
    ensures multiset(Filtered(msgs, tags, blackList, start))[u] == 0
    decreases |msgs|
  {
    if msgs != [] {
      var n := |msgs| - 1;
      FilteredAbsent(msgs[..n], tags, blackList, start, u);
      HitsCount(msgs[n], tags, blackList, start, u);
    }
  }

  lemma {:induction false} HitsMembers(m: Message, tags: seq<string>, blackList: seq<string>, start: int, u: int)
    ensures u in Hits(m, tags, blackList, start) <==>
      u == m.uid && exists j :: 0 <= j < |tags| && Selected(m, tags[j], blackList, start)
    decreases |tags|
  {
    if tags != [] {
      var n := |tags| - 1;
      HitsMembers(m, tags[..n], blackList, start, u);
      assert forall j :: 0 <= j < n ==> tags[..n][j] == tags[j];
    }
  }

  /**
   * Every UID filterTags returns belongs to a message that passes all three
   * tests for some tag, and every such message's UID is returned.
   */
  lemma {:induction false} FilteredMembers(msgs: seq<Message>, tags: seq<string>, blackList: seq<string>, start: int, u: int)
    ensures u in Filtered(msgs, tags, blackList, start) <==>
      exists k, j :: 0 <= k < |msgs| && 0 <= j < |tags| && msgs[k].uid == u && Selected(msgs[k], tags[j], blackList, start)
    decreases |msgs|
  {
    if msgs != [] {
      var n := |msgs| - 1;
      FilteredMembers(msgs[..n], tags, blackList, start, u);
      HitsMembers(msgs[n], tags, blackList, start, u);
      assert forall k :: 0 <= k < n ==> msgs[..n][k] == msgs[k];
    }
  }

  /** The empty tag occurs in every subject: it selects every admitted message. */
  lemma EmptyTagSelectsAll(msgs: seq<Message>, tags: seq<string>, blackList: seq<string>, start: int, k: int)
    requires 0 <= k < |msgs| && "" in tags && Admitted(msgs[k], blackList, start)
    ensures msgs[k].uid in Filtered(msgs, tags, blackList, start)
  {
    var j :| 0 <= j < |tags| && tags[j] == "";
    assert OccursAt(ToLower(msgs[k].subject), ToLower(tags[j]), 0);
    assert Selected(msgs[k], tags[j], blackList, start);
    FilteredMembers(msgs, tags, blackList, start, msgs[k].uid);
  }

  // ---------------------------------------------------------------------
  // FilterEmailsByTag
  // ---------------------------------------------------------------------

  /** im.GetEmails(filteredUids...): the fetched messages whose UID was selected, each once. */
  function Refetch(msgs: seq<Message>, uids: seq<int>): seq<Message> {
    if msgs == [] then []
    else Refetch(msgs[..|msgs| - 1], uids) + (if msgs[|msgs| - 1].uid in uids then [msgs[|msgs| - 1]] else [])
  }

  /** What FilterEmailsByTag returns for messages refetched from the same mailbox. */
  function MatchingEmails(msgs: seq<Message>, tags: seq<string>, blackList: seq<string>, start: int)
    : Result<seq<Message>, FilterError>
  {
    if tags == [] then Failure(NoTagsProvided)
    else
      var uids := Filtered(msgs, tags, blackList, start);
      if uids == [] then Failure(NoEmailsWithTags(tags)) else Success(Refetch(msgs, uids))
  }

  method FilterEmailsByTag(msgs: seq<Message>, tags: seq<string>, blackList: seq<string>, start: int)
    returns (r: Result<seq<Message>, FilterError>)
    ensures r == MatchingEmails(msgs, tags, blackList, start)
  {
    var filtered := FilterTags(msgs, tags, blackList, start);
    if filtered.Failure? {
      return Failure(filtered.error);
    }
    if |filtered.value| == 0 {
      return Failure(NoEmailsWithTags(tags));
    }
    return Success(Refetch(msgs, filtered.value));
  }

  lemma {:induction false} RefetchMembers(msgs: seq<Message>, uids: seq<int>, m: Message)
    ensures m in Refetch(msgs, uids) <==> m in msgs && m.uid in uids
    decreases |msgs|
  {
    if msgs != [] {
      var n := |msgs| - 1;
      RefetchMembers(msgs[..n], uids, m);
      assert msgs == msgs[..n] + [msgs[n]];
    }
  }

  /**
   * FilterEmailsByTag fails with "no emails found with tags" exactly when no
   * message passes the three tests for any tag; otherwise it returns a
   * non-empty selection of the fetched messages, each passing them.
   */
  lemma MatchingEmailsOutcome(msgs: seq<Message>, tags: seq<string>, blackList: seq<string>, start: int)
    requires DistinctUids(msgs)
    ensures var r := MatchingEmails(msgs, tags, blackList, start);
      && (r == Failure(NoTagsProvided) <==> tags == [])
      && (r == Failure(NoEmailsWithTags(tags)) <==>
            tags != [] && forall k, j :: 0 <= k < |msgs| && 0 <= j < |tags| ==> !Selected(msgs[k], tags[j], blackList, start))
      && (r.Success? ==>
            && r.value != []
            && forall m :: m in r.value ==> m in msgs && exists j :: 0 <= j < |tags| && Selected(m, tags[j], blackList, start))
  {
    var uids := Filtered(msgs, tags, blackList, start);
    if tags != [] {
      if uids == [] {
        forall k, j | 0 <= k < |msgs| && 0 <= j < |tags|
          ensures !Selected(msgs[k], tags[j], blackList, start)
        {
          FilteredMembers(msgs, tags, blackList, start, msgs[k].uid);
        }
      } else {
        var u := uids[0];
        FilteredMembers(msgs, tags, blackList, start, u);
        var k, j :| 0 <= k < |msgs| && 0 <= j < |tags| && msgs[k].uid == u && Selected(msgs[k], tags[j], blackList, start);
        RefetchMembers(msgs, uids, msgs[k]);
        forall m | m in Refetch(msgs, uids)
          ensures m in msgs && exists j :: 0 <= j < |tags| && Selected(m, tags[j], blackList, start)
        {
          RefetchMembers(msgs, uids, m);
          var i :| 0 <= i < |msgs| && msgs[i] == m;
          FilteredMembers(msgs, tags, blackList, start, m.uid);
          var k', j' :| 0 <= k' < |msgs| && 0 <= j' < |tags| && msgs[k'].uid == m.uid && Selected(msgs[k'], tags[j'], blackList, start);
          assert i == k';
        }
      }
    }
  }

  // ---------------------------------------------------------------------
  // AggregateEmailBody
  // ---------------------------------------------------------------------

  /** Each message's text followed by ". ", in the order visited. */
  function Corpus(msgs: seq<Message>): string {
    if msgs == [] then "" else Corpus(msgs[..|msgs| - 1]) + msgs[|msgs| - 1].text + ". "
  }

  function TextLength(msgs: seq<Message>): nat {
    if msgs == [] then 0 else TextLength(msgs[..|msgs| - 1]) + |msgs[|msgs| - 1].text|
  }

  /** AggregateEmailBody.  The source walks a Go map, so the order of the parts is unspecified. */
  method AggregateEmailBody(msgs: seq<Message>) returns (body: string)
    ensures body == Corpus(msgs)
  {
    body := "";
    for i := 0 to |msgs|
      invariant body == Corpus(msgs[..i])
    {
      body := body + msgs[i].text + ". ";
      assert msgs[..i + 1][..i] == msgs[..i];
    }
    assert msgs[..|msgs|] == msgs;
  }

  /** The body is two characters longer per message than the texts, so it is empty iff there are none. */
  lemma {:induction false} CorpusLength(msgs: seq<Message>)
    ensures |Corpus(msgs)| == TextLength(msgs) + 2 * |msgs|
    ensures Corpus(msgs) == "" <==> msgs == []
    decreases |msgs|
  {
    if msgs != [] {
      CorpusLength(msgs[..|msgs| - 1]);
    }
  }
}
