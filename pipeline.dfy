/**
 * GenerateSummaryandWordCloud of components/user/pipeline.go up to the
 * summariser: the tag check, the per-tag watermark initialisation, its
 * minimum, the clamp to the highest UID, the fetch, the new watermark that is
 * written back before filtering, the filter and the aggregated body.
 *
 * The password decoding, the IMAP login and the folder selection are folded
 * into one `Session` value; the mailbox is the ascending sequence of its
 * messages.  The watermark is the decoded `LastUID` map.
 */
module Pipeline {
  import opened Wrappers
  import opened Email

  /** The fields of a user record that the pipeline reads. */
  datatype UserConfig = UserConfig(
    tags: seq<string>,
    blackList: seq<string>,
    startTime: int,
    lastUID: map<string, nat>)

  /** The result of decoding the password, logging in and selecting the folder. */
  datatype Session = LoginFailed(reason: string) | Connected(box: seq<Message>)

  datatype PipelineError =
    | NoTags                    // "no tags"
    | Login(reason: string)     // decoding, decryption or IMAP login failed
    | NoEmails                  // "no emails found"
    | Filter(cause: FilterError)
    | NoSummary                 // "no summary"

  /** What a run returns, and the watermark it stores (None: the stored one is left alone). */
  datatype Run = Run(result: Result<string, PipelineError>, written: Option<map<string, nat>>)

  /** The lower bound of the range `999999999:*` that asks the server for its highest UID. */
  const HighestProbe := 999999999

  // ---------------------------------------------------------------------
  // The watermark steps
  // ---------------------------------------------------------------------

  /** A configured tag's starting point: its stored mark, or 1 when it has none or 0. */
  function InitialMark(stored: map<string, nat>, tag: string): nat {
    if tag in stored && stored[tag] != 0 then stored[tag] else 1
  }

  function Initialized(stored: map<string, nat>, tags: seq<string>): map<string, nat> {
    map k | k in stored.Keys + (set t | t in tags) :: if k in tags then InitialMark(stored, k) else stored[k]
  }

  /**
   * After initialisation every configured tag holds its stored mark, or 1 if
   * that was missing or 0; every other key keeps its stored value.
   */
  lemma InitializedMarks(stored: map<string, nat>, tags: seq<string>)
    ensures forall j :: 0 <= j < |tags| ==>
      tags[j] in Initialized(stored, tags) &&
      Initialized(stored, tags)[tags[j]] == (if tags[j] in stored && stored[tags[j]] != 0 then stored[tags[j]] else 1)
    ensures forall k :: k in Initialized(stored, tags) && k !in tags ==> k in stored && Initialized(stored, tags)[k] == stored[k]
    ensures stored.Keys <= Initialized(stored, tags).Keys
  {
  }

  /** The loop of lines 37-41 over the decoded map. */
  method InitWatermark(stored: map<string, nat>, tags: seq<string>) returns (marks: map<string, nat>)
    ensures marks == Initialized(stored, tags)
  {
    marks := stored;
    for i := 0 to |tags|
      invariant forall t :: t in tags[..i] ==> t in marks && marks[t] == InitialMark(stored, t)
      invariant forall k :: k in marks && k !in tags[..i] ==> k in stored && marks[k] == stored[k]
      invariant stored.Keys <= marks.Keys
      invariant forall k :: k in marks ==> k in stored || k in tags[..i]
    {
      var tag := tags[i];
      if tag !in marks || marks[tag] == 0 {
        marks := marks[tag := 1];
      }
      assert tags[..i + 1] == tags[..i] + [tag];
    }
    assert tags[..|tags|] == tags;
  }

  /** The smallest mark among the configured tags. */
  function Lowest(marks: map<string, nat>, tags: seq<string>): (low: nat)
    requires tags != [] && forall j :: 0 <= j < |tags| ==> tags[j] in marks
    ensures exists j :: 0 <= j < |tags| && low == marks[tags[j]]
    ensures forall j :: 0 <= j < |tags| ==> low <= marks[tags[j]]
  {
    if |tags| == 1 then marks[tags[0]]
    else
      var rest := Lowest(marks, tags[..|tags| - 1]);
      var last := marks[tags[|tags| - 1]];
      if last < rest then last else rest
  }

  /** Lines 43-51: start from the first tag's mark and lower it over all tags. */
  method LowestMark(marks: map<string, nat>, tags: seq<string>) returns (low: nat)
    requires tags != [] && forall j :: 0 <= j < |tags| ==> tags[j] in marks
    ensures low == Lowest(marks, tags)
  {
    low := marks[tags[0]];
    if |tags| > 1 {
      for i := 0 to |tags|
        invariant low <= marks[tags[0]]
        invariant forall j :: 0 <= j < i ==> low <= marks[tags[j]]
        invariant low == marks[tags[0]] || exists j :: 0 <= j < i && low == marks[tags[j]]
      {
        if marks[tags[i]] < low {
          low := marks[tags[i]];
        }
      }
    }
    var best := Lowest(marks, tags);
    var j :| 0 <= j < |tags| && best == marks[tags[j]];
    assert best <= low;
  }

  function Watermark(tags: seq<string>, last: nat): map<string, nat> {
    map t | t in tags :: last
  }

  /** Lines 71-75: a fresh map from every configured tag to the last fetched UID. */
  method AdvanceWatermark(tags: seq<string>, last: nat) returns (m: map<string, nat>)
    ensures m == Watermark(tags, last)
  {
    m := map[];
    for i := 0 to |tags|
      invariant forall t :: t in m <==> t in tags[..i]
      invariant forall t :: t in m ==> m[t] == last
    {
      m := m[tags[i] := last];
      assert tags[..i + 1] == tags[..i] + [tags[i]];
    }
    assert tags[..|tags|] == tags;
  }

  // ---------------------------------------------------------------------
  // The run
  // ---------------------------------------------------------------------

  /** Lines 71-94 for the fetched messages: the new watermark, then the filter and the body. */
  function AfterFetch(user: UserConfig, fetched: seq<Message>): Run
    requires fetched != [] && fetched[|fetched| - 1].uid >= 0
  {
    var mark := Watermark(user.tags, fetched[|fetched| - 1].uid);
    match MatchingEmails(fetched, user.tags, user.blackList, user.startTime)
    case Failure(e) => Run(Failure(Filter(e)), Some(mark))
    case Success(msgs) =>
      var body := Corpus(msgs);
      if |body| == 0 then Run(Failure(NoSummary), Some(mark)) else Run(Success(body), Some(mark))
  }

  /** The run as a function of the user record and the mailbox. */
  function Pipeline(user: UserConfig, session: Session): Run
    requires session.Connected? ==> Ascending(session.box)
  {
    if user.tags == [] then Run(Failure(NoTags), None)
    else match session
      case LoginFailed(reason) => Run(Failure(Login(reason)), None)
      case Connected(box) =>
        var low := Lowest(Initialized(user.lastUID, user.tags), user.tags);
        var highest := GetEmails(box, HighestProbe);
        if highest == [] then Run(Failure(NoEmails), None)
        else
          var from := Min(low, highest[|highest| - 1].uid);
          GetEmailsNewest(box, from);
          AfterFetch(user, GetEmails(box, from))
  }

  /** Lines 71-94: store the new watermark, then filter and aggregate. */
  method WriteAndFilter(user: UserConfig, emails: seq<Message>) returns (run: Run)
    requires emails != [] && emails[|emails| - 1].uid >= 0
    ensures run == AfterFetch(user, emails)
  {
    var uidList := Uids(emails);
    var mark := AdvanceWatermark(user.tags, uidList[|uidList| - 1]);
    var written := Some(mark);  // stored before the filter runs
    var filtered := FilterEmailsByTag(emails, user.tags, user.blackList, user.startTime);
    if filtered.Failure? {
      return Run(Failure(Filter(filtered.error)), written);
    }
    var body := AggregateEmailBody(filtered.value);
    if |body| == 0 {
      return Run(Failure(NoSummary), written);
    }
    return Run(Success(body), written);
  }

  /**
   * GenerateSummaryandWordCloud up to line 94; on success it returns the
   * aggregated body that the source then hands to the summariser.
   */
  method GenerateSummary(user: UserConfig, session: Session) returns (run: Run)
    requires session.Connected? ==> Ascending(session.box)
    ensures run == Pipeline(user, session)
  {
    if |user.tags| == 0 {
      return Run(Failure(NoTags), None);
    }
    if session.LoginFailed? {
      return Run(Failure(Login(session.reason)), None);
    }
    var box := session.box;
    var marks := InitWatermark(user.lastUID, user.tags);
    InitializedMarks(user.lastUID, user.tags);
    var low := LowestMark(marks, user.tags);
    var highest := GetEmails(box, HighestProbe);
    var uids := Uids(highest);
    if |uids| == 0 {
      return Run(Failure(NoEmails), None);
    }
    var top := uids[|uids| - 1];
    assert box != [];
    GetEmailsNewest(box, HighestProbe);
    assert top == highest[|highest| - 1].uid by {
      assert |uids| == |highest|;
    }
    if top < low {
      low := top;
    }
    var emails := GetEmails(box, low);
    GetEmailsNewest(box, low);
    run := WriteAndFilter(user, emails);
  }

  // ---------------------------------------------------------------------
  // Properties of a run
  // ---------------------------------------------------------------------

  /**
   * The checks that come before the watermark is stored: a missing tag list
   * is reported first, then a failed login, then an empty mailbox; none of
   * them stores a watermark.
   */
  lemma FailuresBeforeWrite(user: UserConfig, session: Session)
    requires session.Connected? ==> Ascending(session.box)
    ensures user.tags == [] ==> Pipeline(user, session) == Run(Failure(NoTags), None)
    ensures user.tags != [] && session.LoginFailed? ==>
      Pipeline(user, session) == Run(Failure(Login(session.reason)), None)
    ensures user.tags != [] && session == Connected([]) ==> Pipeline(user, session) == Run(Failure(NoEmails), None)
  {
  }

  /** The first UID GetEmails asks for: the lowest initialised mark, clamped to the highest UID. */
  function FetchStart(user: UserConfig, box: seq<Message>): int
    requires user.tags != [] && box != []
  {
    Min(Lowest(Initialized(user.lastUID, user.tags), user.tags), box[|box| - 1].uid)
  }

  /** With at least one message, a run continues with the messages fetched from FetchStart. */
  lemma ConnectedRun(user: UserConfig, box: seq<Message>)
    requires user.tags != [] && Ascending(box) && box != []
    ensures var fetched := GetEmails(box, FetchStart(user, box));
      && fetched != [] && fetched[|fetched| - 1] == box[|box| - 1]
      && Pipeline(user, Connected(box)) == AfterFetch(user, fetched)
  {
    GetEmailsNewest(box, HighestProbe);
    var start := FetchStart(user, box);
    GetEmailsNewest(box, start);
    var highest := GetEmails(box, HighestProbe);
    assert highest[|highest| - 1].uid == box[|box| - 1].uid;
  }

  /**
   * With at least one message the run stores, for exactly the configured
   * tags (earlier marks of other tags are dropped), the mailbox's highest
   * UID, whatever the filter then decides.
   */
  lemma WatermarkWrittenBeforeFilter(user: UserConfig, box: seq<Message>)
    requires user.tags != [] && Ascending(box) && box != []
    ensures var top := box[|box| - 1].uid;
      && top > 0
      && Pipeline(user, Connected(box)).written == Some(Watermark(user.tags, top))
      && Watermark(user.tags, top).Keys == (set t | t in user.tags)
      && (forall t :: t in Watermark(user.tags, top) ==> Watermark(user.tags, top)[t] == top)
  {
    ConnectedRun(user, box);
    var fetched := GetEmails(box, FetchStart(user, box));
    AfterFetchWritten(user, fetched);
  }

  /** Whatever the filter decides, a run that fetched messages stores the new watermark. */
  lemma AfterFetchWritten(user: UserConfig, fetched: seq<Message>)
    requires fetched != [] && fetched[|fetched| - 1].uid >= 0
    ensures AfterFetch(user, fetched).written == Some(Watermark(user.tags, fetched[|fetched| - 1].uid))
  {
  }

  /**
   * A run fetches exactly the messages whose UID is at least the lowest
   * initialised mark, plus the newest message; in particular the message at
   * the lowest mark itself is fetched again.
   */
  lemma FetchedRange(user: UserConfig, box: seq<Message>)
    requires user.tags != [] && Ascending(box) && box != []
    ensures var low := Lowest(Initialized(user.lastUID, user.tags), user.tags);
      var fetched := GetEmails(box, FetchStart(user, box));
      forall i :: 0 <= i < |box| ==> (box[i] in fetched <==> low <= box[i].uid || i == |box| - 1)
  {
    var start := FetchStart(user, box);
    GetEmailsMembers(box, start);
    var low := Lowest(Initialized(user.lastUID, user.tags), user.tags);
    var n := |box| - 1;
    var top := box[n].uid;
    if top < low {
      assert start == top;
      forall i | 0 <= i < n
        ensures box[i].uid < top
      {
      }
    } else {
      assert start == low;
    }
  }

  /**
   * The watermark is not monotone: a tag whose stored mark lies above the
   * mailbox's highest UID has that mark lowered to the highest UID.
   */
  lemma WatermarkCanDecrease(user: UserConfig, box: seq<Message>, tag: string)
    requires user.tags != [] && Ascending(box) && box != []
    requires tag in user.tags && tag in user.lastUID && user.lastUID[tag] > box[|box| - 1].uid
    ensures var written := Pipeline(user, Connected(box)).written;
      written.Some? && tag in written.value && written.value[tag] < user.lastUID[tag]
  {
    WatermarkWrittenBeforeFilter(user, box);
  }

  /**
   * A run never reports "no summary": a successful filter selects at least
   * one message, and each message adds its text and ". " to the body.
   */
  lemma NoSummaryUnreachable(user: UserConfig, session: Session)
    requires session.Connected? ==> Ascending(session.box)
    ensures Pipeline(user, session).result != Failure(NoSummary)
  {
    if user.tags != [] && session.Connected? && session.box != [] {
      var box := session.box;
      ConnectedRun(user, box);
      var fetched := GetEmails(box, FetchStart(user, box));
      GetEmailsAscending(box, FetchStart(user, box));
      MatchingEmailsOutcome(fetched, user.tags, user.blackList, user.startTime);
      var r := MatchingEmails(fetched, user.tags, user.blackList, user.startTime);
      if r.Success? {
        CorpusLength(r.value);
      }
    }
  }

  /** After a run stored one positive mark for every tag, that mark is the lowest. */
  lemma UniformMarkLowest(tags: seq<string>, top: nat)
    requires tags != [] && top > 0
    ensures Lowest(Initialized(Watermark(tags, top), tags), tags) == top
  {
    var w := Watermark(tags, top);
    InitializedMarks(w, tags);
    var marks := Initialized(w, tags);
    var k :| 0 <= k < |tags| && Lowest(marks, tags) == marks[tags[k]];
    assert tags[k] in w;
  }

  /** Asking for "top:*" where top is the highest UID fetches the newest message alone. */
  lemma FetchFromNewest(box: seq<Message>)
    requires Ascending(box) && box != []
    ensures GetEmails(box, box[|box| - 1].uid) == [box[|box| - 1]]
  {
    var n := |box| - 1;
    var r := GetEmails(box, box[n].uid);
    GetEmailsRange(box, box[n].uid);
    if n > 0 {
      assert box[n - 1].uid < box[n].uid;
    }
    assert |r| == 1;
  }

  /** A single message that some tag selects is returned by the filter on its own. */
  lemma SelectedAlone(m: Message, tags: seq<string>, blackList: seq<string>, start: int, j: int)
    requires 0 <= j < |tags| && Selected(m, tags[j], blackList, start)
    ensures MatchingEmails([m], tags, blackList, start) == Success([m])
  {
    FilteredMembers([m], tags, blackList, start, m.uid);
    var uids := Filtered([m], tags, blackList, start);
    assert m.uid in uids;
    assert Refetch([m], uids) == [m] by {
      assert [m][..0] == [];
    }
  }

  /** The body aggregated from one message. */
  lemma CorpusOfOne(m: Message)
    ensures Corpus([m]) == m.text + ". "
  {
    assert [m][..0] == [];
  }

  /**
   * Running twice over an unchanged mailbox is not idempotent: the second run
   * starts at the stored mark, which is the newest message's UID, fetches
   * that message again and, when it matches a tag, summarises it again.
   */
  lemma RerunRepeatsNewest(user: UserConfig, box: seq<Message>, j: int)
    requires user.tags != [] && Ascending(box) && box != []
    requires 0 <= j < |user.tags| && Selected(box[|box| - 1], user.tags[j], user.blackList, user.startTime)
    ensures var first := Pipeline(user, Connected(box));
      && first.written.Some?
      && Pipeline(user.(lastUID := first.written.value), Connected(box))
         == Run(Success(box[|box| - 1].text + ". "), first.written)
  {
    var newest := box[|box| - 1];
    var top := newest.uid;
    WatermarkWrittenBeforeFilter(user, box);
    var user2 := user.(lastUID := Watermark(user.tags, top));
    UniformMarkLowest(user.tags, top);
    assert FetchStart(user2, box) == top;
    ConnectedRun(user2, box);
    FetchFromNewest(box);
    SelectedAlone(newest, user.tags, user.blackList, user.startTime, j);
    CorpusOfOne(newest);
  }
}
