/**
 * The records the Tervezo service returns, as parsed values, and the
 * display rules defined on them: status labels and classes, the fallback
 * chains that pick a timeline message's text and status, and the short
 * forms shown in lists. Time stamps are integer milliseconds since the epoch.
 */
module TervezoModels {
  import opened Wrappers
  import opened Text

  datatype ImplementationStatus =
    Pending | Queued | Running | Completed | Merged | Failed | Stopped | Cancelled

  function Label(s: ImplementationStatus): (r: string)
    ensures |r| > 0
  {
    match s
    case Pending => "Pending"
    case Queued => "Queued"
    case Running => "Running"
    case Completed => "Done"
    case Merged => "Merged"
    case Failed => "Failed"
    case Stopped => "Stopped"
    case Cancelled => "Cancelled"
  }

  /** Every status has its own label, and a completed one reads "Done". */
  lemma LabelInjective(a: ImplementationStatus, b: ImplementationStatus)
    ensures Label(a) == Label(b) <==> a == b
    ensures Label(Completed) == "Done"
  {
  }

  predicate IsRunning(s: ImplementationStatus) {
    s == Running
  }

  /** A status the implementation will not leave on its own. */
  predicate IsTerminal(s: ImplementationStatus) {
    s == Completed || s == Merged || s == Failed || s == Stopped || s == Cancelled
  }

  /** The statuses fall into three classes: running, finished, and not yet
      started (pending or queued); no status is in two of them. */
  lemma StatusClasses(s: ImplementationStatus)
    ensures !(IsRunning(s) && IsTerminal(s))
    ensures !IsRunning(s) && !IsTerminal(s) <==> s == Pending || s == Queued
  {
  }

  datatype Implementation = Implementation(
    id: string,
    title: Option<string>,
    status: ImplementationStatus,
    branch: Option<string>,
    repoUrl: Option<string>,
    createdAt: Option<int>,
    updatedAt: Option<int>,
    totalTokens: Option<nat>,
    messageCount: Option<nat>,
    prUrl: Option<string>,
    prNumber: Option<nat>,
    prStatus: Option<string>,
    mode: Option<string>)

  function DisplayName(impl: Implementation): (r: string)
    ensures impl.title.Some? ==> r == impl.title.value
    ensures impl.title.None? ==> r == "(untitled)"
  {
    impl.title.UnwrapOr("(untitled)")
  }

  /** The age shown for an implementation at time `now`: its last update,
      or its creation when it was never updated, or "-" when neither is known. */
  function ImplementationActivity(impl: Implementation, now: int): (r: string)
    ensures impl.updatedAt.None? && impl.createdAt.None? <==> r == "-"
    ensures impl.updatedAt.Some? ==> r == AgeText(TruncDiv(now - impl.updatedAt.value, 1000))
    ensures impl.updatedAt.None? && impl.createdAt.Some? ==>
      r == AgeText(TruncDiv(now - impl.createdAt.value, 1000))
  {
    match impl.updatedAt.Or(impl.createdAt)
    case Some(ts) => AgeText(TruncDiv(now - ts, 1000))
    case None => "-"
  }

  /** The repository's last path segment, or "-" when there is no repository. */
  function RepoShort(impl: Implementation): (r: string)
    ensures impl.repoUrl.None? ==> r == "-"
    ensures impl.repoUrl.Some? ==>
      ('/' !in r && |r| <= |impl.repoUrl.value| && r == impl.repoUrl.value[|impl.repoUrl.value| - |r|..])
    ensures impl.repoUrl.Some? && '/' in impl.repoUrl.value ==>
      |r| < |impl.repoUrl.value| && impl.repoUrl.value[|impl.repoUrl.value| - |r| - 1] == '/'
  {
    match impl.repoUrl
    case Some(url) =>
      AfterLastIsSuffix(url, '/');
      assert |AfterLast(url, '/')| == |url| ==> AfterLast(url, '/') == url[0..];
      AfterLast(url, '/')
    case None => "-"
  }

  /** For a GitHub URL the repository name is its last segment. */
  lemma RepoShortExample(impl: Implementation)
    requires impl.repoUrl == Some("https://github.com/acme/widgets")
    ensures RepoShort(impl) == "widgets"
  {
    var url := impl.repoUrl.value;
    var r := RepoShort(impl);
    assert url[|url| - 8] == '/';
    assert r == url[|url| - |r|..];
    if |r| > 7 {
      assert false;
    }
    assert url[|url| - 7..] == "widgets";
    if |r| < 7 {
      assert false;
    }
  }

  datatype TimelineMessage = TimelineMessage(
    id: Option<string>,
    timestamp: Option<int>,
    msgType: Option<string>,
    reason: Option<string>,
    toStatus: Option<string>,
    fromStatus: Option<string>,
    text: Option<string>,
    message: Option<string>,
    content: Option<string>,
    output: Option<string>,
    details: Option<string>,
    status: Option<string>)

  /** The text fields a message may carry, in the order they are preferred. */
  function TextFields(m: TimelineMessage): (r: seq<Option<string>>)
    ensures |r| == 6
  {
    [m.reason, m.text, m.message, m.content, m.output, m.details]
  }

  /** The first present value of `fields`, if any. */
  function FirstPresent(fields: seq<Option<string>>): (r: Option<string>)
    ensures r.None? <==> forall i :: 0 <= i < |fields| ==> fields[i].None?
    ensures r.Some? ==>
      exists i :: 0 <= i < |fields| && fields[i] == r && (forall j :: 0 <= j < i ==> fields[j].None?)
    decreases |fields|
  {
    if |fields| == 0 then None
    else if fields[0].Some? then fields[0]
    else
      var r := FirstPresent(fields[1..]);
      assert forall j :: 1 <= j < |fields| ==> fields[j] == fields[1..][j - 1];
      r
  }

  /** The text shown for a timeline message. */
  function DisplayText(m: TimelineMessage): (r: string)
    ensures r == "" || Some(r) in [m.reason, m.text, m.message, m.content, m.output, m.details]
    ensures m.reason.None? && m.text.None? && m.message.None? && m.content.None? && m.output.None? && m.details.None? ==> r == ""
  {
    m.reason.Or(m.text).Or(m.message).Or(m.content).Or(m.output).Or(m.details).UnwrapOr("")
  }

  /** The text shown is the first text field present, in the order reason,
      text, message, content, output, details, and empty when none is. */
  lemma {:induction false} DisplayTextIsFirstPresent(m: TimelineMessage)
    ensures DisplayText(m) == FirstPresent(TextFields(m)).UnwrapOr("")
    ensures m.reason.Some? ==> DisplayText(m) == m.reason.value
    ensures (forall i :: 0 <= i < 6 ==> TextFields(m)[i].None?) ==> DisplayText(m) == ""
  {
    var f := TextFields(m);
    var f1, f2, f3 := f[1..], f[2..], f[3..];
    var f4, f5, f6 := f[4..], f[5..], f[6..];
    assert f6 == [] && FirstPresent(f6) == None;
    assert f5[1..] == f6 && FirstPresent(f5) == m.details.Or(None);
    assert f4[1..] == f5 && FirstPresent(f4) == m.output.Or(FirstPresent(f5));
    assert f3[1..] == f4 && FirstPresent(f3) == m.content.Or(FirstPresent(f4));
    assert f2[1..] == f3 && FirstPresent(f2) == m.message.Or(FirstPresent(f3));
    assert f1[1..] == f2 && FirstPresent(f1) == m.text.Or(FirstPresent(f2));
    assert f[1..] == f1 && FirstPresent(f) == m.reason.Or(FirstPresent(f1));
  }

  /** The status used for a message's icon: the status it moved to, else its own status. */
  function EffectiveStatus(m: TimelineMessage): (r: Option<string>)
    ensures m.toStatus.Some? ==> r == m.toStatus
    ensures m.toStatus.None? ==> r == m.status
  {
    m.toStatus.Or(m.status)
  }

  datatype FileChange = FileChange(
    path: Option<string>,
    diff: Option<string>,
    status: Option<string>,
    additions: Option<nat>,
    deletions: Option<nat>,
    changes: Option<nat>)

  function DisplayPath(c: FileChange): (r: string)
    ensures c.path.Some? ==> r == c.path.value
    ensures c.path.None? ==> r == "(unknown)"
  {
    c.path.UnwrapOr("(unknown)")
  }

  /** One entry of a response's list, as the decoder sees it: JSON null, a
      value that does not decode into the expected record, or a record. */
  datatype Raw<T> = Null | Malformed | Decoded(value: T)
}
