/**
  The decision rules of the broadcast console page: its own recipient counter, when the send,
  login and logout buttons are enabled, which request the send button issues, and the session
  badge. Component state is passed in as parameters.
 */
module Console {
  import opened Wrappers
  import opened Text
  import opened Recipients

  /** The page's rule for one chunk: the manager's rule without the `+` step. */
  function PageNormalize(chunk: string): (r: Option<string>)
    ensures r.Some? ==> IsAddress(r.value)
  {
    var digits := Digits(chunk);
    if digits == [] then None
    else
      var candidate := if digits[0] == '0' then CountryPrefix + digits[1..] else digits;
      if IsAddress(candidate) then Some(candidate) else None
  }

  /** Leaving out the `+` step changes nothing: after the digit filter it is never taken. */
  lemma PageNormalizeAgrees(chunk: string)
    ensures PageNormalize(chunk) == Normalize(chunk)
  {
    NormalizeSpec(chunk);
  }

  function Elements<T>(s: seq<T>): set<T> {
    set x | x in s
  }

  /** A list without repeats has as many elements as its set. */
  lemma {:induction false} DistinctCardinality<T>(s: seq<T>)
    requires NoDuplicates(s)
    ensures |Elements(s)| == |s|
  {
    if s != [] {
      var init, last := s[..|s| - 1], s[|s| - 1];
      assert s == init + [last];
      assert NoDuplicates(init) by {
        forall i, j | 0 <= i < j < |init| ensures init[i] != init[j] {
          assert init[i] == s[i] && init[j] == s[j];
        }
      }
      DistinctCardinality(init);
      assert last !in Elements(init) by {
        forall i | 0 <= i < |init| ensures init[i] != last {
          assert init[i] == s[i];
        }
      }
      assert Elements(s) == Elements(init) + {last};
    }
  }

  /**
    `countRecipients`: the number of distinct addresses the manager derives from the same text,
    so the count the page shows before saving is the one the manager stores. It is 0 exactly
    when no chunk normalises to an address, in particular for the empty text.
   */
  method CountRecipients(input: string) returns (count: nat)
    ensures count == |Sanitized(input)|
    ensures count == 0 <==> forall i :: 0 <= i < |Chunks(input)| ==> Normalize(Chunks(input)[i]) == None
    ensures input == "" ==> count == 0
  {
    var chunks := Chunks(input);
    var normalized: set<string> := {};
    for i := 0 to |chunks|
      invariant normalized == Elements(Candidates(chunks[..i]))
    {
      ElementsStep(chunks, i);
      var digitsOnly := Digits(chunks[i]);
      if digitsOnly == [] {
        continue;
      }
      var candidate := digitsOnly;
      if candidate[0] == '0' {
        candidate := CountryPrefix + candidate[1..];
      }
      if !IsAddress(candidate) {
        continue;
      }
      normalized := normalized + {candidate};
    }
    assert chunks[..|chunks|] == chunks;
    count := |normalized|;
    CandidateCount(input);
  }

  /** One more chunk adds at most its own address, by the page's rule, to the set of candidates. */
  lemma ElementsStep(chunks: seq<string>, i: nat)
    requires i < |chunks|
    ensures Elements(Candidates(chunks[..i + 1])) ==
            Elements(Candidates(chunks[..i])) + (match PageNormalize(chunks[i]) case Some(a) => {a} case None => {})
  {
    CandidatesStep(chunks, i);
    PageNormalizeAgrees(chunks[i]);
  }

  /** Counting the distinct candidates gives the length of the manager's list. */
  lemma CandidateCount(input: string)
    ensures |Elements(Candidates(Chunks(input)))| == |Sanitized(input)|
    ensures |Sanitized(input)| == 0 <==> forall i :: 0 <= i < |Chunks(input)| ==> Normalize(Chunks(input)[i]) == None
    ensures input == "" ==> |Sanitized(input)| == 0
  {
    SanitizedEmptyExactly(input);
    var sanitized := Sanitized(input);
    DedupSpec(Candidates(Chunks(input)));
    assert Elements(Candidates(Chunks(input))) == Elements(sanitized);
    DistinctCardinality(sanitized);
  }

  /** The local `0…` and international `62…` spellings of one number count once. */
  lemma SpellingsCountOnce(rest: string)
    requires AllDigits(rest) && IsAddress(CountryPrefix + rest)
    ensures Dedup(Candidates([['0'] + rest, CountryPrefix + rest])) == [CountryPrefix + rest]
  {
    var number := CountryPrefix + rest;
    LocalAndInternationalAgree(rest);
    DigitsOfDigits(number);
    NormalizeSpec(number);
    var chunks := [['0'] + rest, number];
    assert Normalize(chunks[1]) == Some(number);
    assert Normalize(chunks[0]) == Some(number);
    assert chunks[..1] == [chunks[0]];
    assert Candidates(chunks[..1]) == [number] by {
      assert chunks[..1][..0] == [];
    }
    assert Candidates(chunks) == [number, number];
    assert [number, number][..1] == [number];
    assert Dedup([number]) == [number] by {
      assert [number][..0] == [];
    }
  }

  /** `disableSend`: the condition of the send action itself, before the busy flag. */
  function SendDisabled(connected: bool, timerActive: bool, message: string, recipientCount: int): (disabled: bool)
    ensures !connected ==> disabled
    ensures connected && timerActive ==> !disabled
    ensures connected && !timerActive ==> (disabled <==> Trim(message) == [] || recipientCount == 0)
  {
    || !connected
    || (!timerActive && Trim(message) == [])
    || (!timerActive && recipientCount == 0)
  }

  /** What a click on the send button does. */
  datatype SendAction =
    | ReportNotConnected
    | RequestStop
    | RequestStart(sendNow: bool, schedule: bool)

  /** The branch `handleSend` takes; `intervalMinutes` is the parsed interval field. */
  function HandleSend(connected: bool, timerActive: bool, intervalMinutes: int): (a: SendAction)
    ensures a == ReportNotConnected <==> !connected
    ensures a == RequestStop <==> connected && timerActive
    ensures a.RequestStart? <==> connected && !timerActive
    ensures a.RequestStart? ==> a.sendNow && (a.schedule <==> intervalMinutes > 0)
  {
    if !connected then ReportNotConnected
    else if timerActive then RequestStop
    else RequestStart(true, intervalMinutes > 0)
  }

  /** The send button: busy or `disableSend`. */
  function SendButtonDisabled(isSending: bool, connected: bool, timerActive: bool, message: string, recipientCount: int): (disabled: bool)
    ensures isSending ==> disabled
    ensures !connected ==> disabled
    ensures !isSending && connected && timerActive ==> !disabled
  {
    isSending || SendDisabled(connected, timerActive, message, recipientCount)
  }

  /**
    A click the page lets through always issues a request: a stop while a schedule runs, or
    else an immediate send of a non-blank message to at least one recipient.
   */
  lemma EnabledSendIssuesRequest(connected: bool, timerActive: bool, message: string, recipientCount: int, intervalMinutes: int)
    requires !SendButtonDisabled(false, connected, timerActive, message, recipientCount)
    ensures HandleSend(connected, timerActive, intervalMinutes) != ReportNotConnected
    ensures timerActive ==> HandleSend(connected, timerActive, intervalMinutes) == RequestStop
    ensures !timerActive ==>
              && HandleSend(connected, timerActive, intervalMinutes) == RequestStart(true, intervalMinutes > 0)
              && Trim(message) != []
              && recipientCount != 0
  {
  }

  datatype Badge = Connected | AwaitingConnection | NotConnected

  /** The session badge. */
  function StatusBadge(connected: bool, hasAuth: bool): (b: Badge)
    ensures b == Connected <==> connected
    ensures b == AwaitingConnection <==> !connected && hasAuth
    ensures b == NotConnected <==> !connected && !hasAuth
  {
    if connected then Connected else if hasAuth then AwaitingConnection else NotConnected
  }

  /** The login button. */
  function LoginDisabled(isLoggingIn: bool, connected: bool): (disabled: bool)
    ensures connected ==> disabled
    ensures !isLoggingIn ==> (disabled <==> connected)
  {
    isLoggingIn || connected
  }

  /** The logout button. */
  function LogoutDisabled(isLoggingOut: bool, connected: bool, hasAuth: bool): (disabled: bool)
    ensures !connected && !hasAuth ==> disabled
    ensures !isLoggingOut ==> (disabled <==> !connected && !hasAuth)
  {
    isLoggingOut || (!connected && !hasAuth)
  }

  /**
    When no request is in flight, logout is offered exactly when the badge is not "Not
    connected", and login exactly when it is not "Connected".
   */
  lemma ButtonsFollowBadge(connected: bool, hasAuth: bool)
    ensures !LogoutDisabled(false, connected, hasAuth) <==> StatusBadge(connected, hasAuth) != NotConnected
    ensures !LoginDisabled(false, connected) <==> StatusBadge(connected, hasAuth) != Connected
  {
  }

  datatype SendLabel = Working | StopAutoBroadcast | SendOrStartAuto

  /** The send button's caption. */
  function SendButtonLabel(isSending: bool, timerActive: bool): (l: SendLabel)
    ensures l == Working <==> isSending
    ensures l == StopAutoBroadcast <==> !isSending && timerActive
  {
    if isSending then Working else if timerActive then StopAutoBroadcast else SendOrStartAuto
  }

  /** An idle, enabled send button promises what the click does: stopping reads "Stop Auto Broadcast". */
  lemma LabelMatchesAction(connected: bool, timerActive: bool, message: string, recipientCount: int, intervalMinutes: int)
    requires !SendButtonDisabled(false, connected, timerActive, message, recipientCount)
    ensures SendButtonLabel(false, timerActive) == StopAutoBroadcast <==>
              HandleSend(connected, timerActive, intervalMinutes) == RequestStop
  {
  }
}
