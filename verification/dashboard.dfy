/** The applicant dashboard: which state panels show for a user, the
    waitlist banner, and the deadline placeholders in its messages.
    Whether registration is open and whether the confirmation deadline has
    passed come from client utilities and are parameters here, as are the
    formatted deadline strings. */
module Dashboard {
  import opened Wrappers
  import opened Text
  import opened UserModel

  /** The state names the dashboard template asks about. */
  const StateNames: seq<string> := [
    "unverified", "openAndIncomplete", "openAndSubmitted", "closedAndIncomplete",
    "closedAndSubmitted", "admittedAndCanConfirm", "admittedAndCannotConfirm",
    "isSponsorAndIncomplete", "isSponsorAndComplete", "isSponsorAndGrantedAccess",
    "confirmed", "declined"]

  /** `dashState(status)`: whether the panel named `status` shows. */
  function DashState(u: User, regIsOpen: bool, pastConfirmation: bool, status: string): (shown: bool)
    ensures status !in StateNames ==> !shown
  {
    var s := u.status;
    var ss := u.sponsorFields.sponsorStatus;
    if status == "unverified" then !u.verified
    else if status == "openAndIncomplete" then
      regIsOpen && u.verified && !s.completedProfile && !u.sponsor
    else if status == "openAndSubmitted" then
      regIsOpen && s.completedProfile && !s.admitted && !u.sponsor
    else if status == "closedAndIncomplete" then
      !regIsOpen && !s.completedProfile && !s.admitted && !u.sponsor
    else if status == "closedAndSubmitted" then
      !regIsOpen && s.completedProfile && !s.admitted && !u.sponsor
    else if status == "admittedAndCanConfirm" then
      !pastConfirmation && s.admitted && !s.confirmed && !s.declined && !u.sponsor
    else if status == "admittedAndCannotConfirm" then
      pastConfirmation && s.admitted && !s.confirmed && !s.declined && !u.sponsor
    else if status == "isSponsorAndIncomplete" then
      u.verified && u.sponsor && ss != Some(CompletedProfile) && ss != Some(GrantedResumeAccess)
    else if status == "isSponsorAndComplete" then
      u.verified && u.sponsor && ss == Some(CompletedProfile)
    else if status == "isSponsorAndGrantedAccess" then
      u.verified && u.sponsor && ss == Some(GrantedResumeAccess)
    else if status == "confirmed" then
      s.admitted && s.confirmed && !s.declined
    else if status == "declined" then
      s.declined
    else
      false
  }

  /** `showWaitlist`: registration closed and a submitted, unadmitted
      application. */
  function ShowWaitlist(u: User, regIsOpen: bool): (shown: bool)
    ensures shown ==> u.status.completedProfile && !u.status.admitted
    ensures regIsOpen ==> !shown
  {
    !regIsOpen && u.status.completedProfile && !u.status.admitted
  }

  /** The unverified panel shows exactly for unverified accounts. */
  lemma UnverifiedPanel(u: User, regIsOpen: bool, pastConfirmation: bool)
    ensures DashState(u, regIsOpen, pastConfirmation, "unverified") <==> !u.verified
  {
  }

  /** An admitted hacker who has neither confirmed nor declined sees
      exactly one of the two confirmation panels, chosen by the deadline;
      everyone else sees neither. */
  lemma ConfirmPanelsSplit(u: User, regIsOpen: bool, pastConfirmation: bool)
    ensures var can := DashState(u, regIsOpen, pastConfirmation, "admittedAndCanConfirm");
            var cannot := DashState(u, regIsOpen, pastConfirmation, "admittedAndCannotConfirm");
            && !(can && cannot)
            && ((can || cannot) <==> u.status.admitted && !u.status.confirmed && !u.status.declined && !u.sponsor)
            && (can ==> !pastConfirmation)
            && (cannot ==> pastConfirmation)
  {
  }

  /** A verified sponsor sees exactly one of the three sponsor panels;
      nobody else sees any. */
  lemma SponsorPanelsPartition(u: User, regIsOpen: bool, pastConfirmation: bool)
    ensures var inc := DashState(u, regIsOpen, pastConfirmation, "isSponsorAndIncomplete");
            var comp := DashState(u, regIsOpen, pastConfirmation, "isSponsorAndComplete");
            var granted := DashState(u, regIsOpen, pastConfirmation, "isSponsorAndGrantedAccess");
            && ((inc || comp || granted) <==> u.verified && u.sponsor)
            && !(inc && comp) && !(inc && granted) && !(comp && granted)
  {
  }

  /** A hacker who is not yet admitted sees the open or the closed variant
      according to `regIsOpen`, and the submitted or incomplete variant
      according to `completedProfile`; only the open incomplete panel also
      needs a verified account. */
  lemma ApplicationPanels(u: User, regIsOpen: bool, pastConfirmation: bool)
    requires !u.sponsor && !u.status.admitted
    ensures DashState(u, regIsOpen, pastConfirmation, "openAndSubmitted") <==> regIsOpen && u.status.completedProfile
    ensures DashState(u, regIsOpen, pastConfirmation, "closedAndSubmitted") <==> !regIsOpen && u.status.completedProfile
    ensures DashState(u, regIsOpen, pastConfirmation, "openAndIncomplete")
            <==> regIsOpen && !u.status.completedProfile && u.verified
    ensures DashState(u, regIsOpen, pastConfirmation, "closedAndIncomplete")
            <==> !regIsOpen && !u.status.completedProfile
  {
  }

  /** The open panels need `regIsOpen` and the closed ones its negation,
      so no open panel shows beside a closed one. */
  lemma OpenClosedSplit(u: User, regIsOpen: bool, pastConfirmation: bool)
    ensures var open := DashState(u, regIsOpen, pastConfirmation, "openAndIncomplete")
                        || DashState(u, regIsOpen, pastConfirmation, "openAndSubmitted");
            var closed := DashState(u, regIsOpen, pastConfirmation, "closedAndIncomplete")
                          || DashState(u, regIsOpen, pastConfirmation, "closedAndSubmitted");
            && (open ==> regIsOpen) && (closed ==> !regIsOpen) && !(open && closed)
  {
  }

  /** Every user sees at least one panel. */
  lemma SomePanelShows(u: User, regIsOpen: bool, pastConfirmation: bool)
    ensures exists i :: 0 <= i < |StateNames| && DashState(u, regIsOpen, pastConfirmation, StateNames[i])
  {
    var shows := (n: string) => DashState(u, regIsOpen, pastConfirmation, n);
    if !u.verified {
      assert shows(StateNames[0]);
    } else if u.sponsor {
      var ss := u.sponsorFields.sponsorStatus;
      if ss == Some(CompletedProfile) {
        assert shows(StateNames[8]);
      } else if ss == Some(GrantedResumeAccess) {
        assert shows(StateNames[9]);
      } else {
        assert shows(StateNames[7]);
      }
    } else if u.status.declined {
      assert shows(StateNames[11]);
    } else if u.status.admitted {
      if u.status.confirmed {
        assert shows(StateNames[10]);
      } else if pastConfirmation {
        assert shows(StateNames[6]);
      } else {
        assert shows(StateNames[5]);
      }
    } else if u.status.completedProfile {
      if regIsOpen {
        assert shows(StateNames[2]);
      } else {
        assert shows(StateNames[4]);
      }
    } else {
      if regIsOpen {
        assert shows(StateNames[1]);
      } else {
        assert shows(StateNames[3]);
      }
    }
  }

  /** The confirmed and declined panels never show together, and for a
      record whose `confirmed` implies `admitted` and not `declined` the
      confirmed panel is exactly the `confirmed` flag. */
  lemma ConfirmedOrDeclined(u: User, regIsOpen: bool, pastConfirmation: bool)
    ensures !(DashState(u, regIsOpen, pastConfirmation, "confirmed") && DashState(u, regIsOpen, pastConfirmation, "declined"))
    ensures ConfirmationConsistent(u) ==> (DashState(u, regIsOpen, pastConfirmation, "confirmed") <==> u.status.confirmed)
  {
  }

  /** The panels agree with the `status.name` the server reports, for a
      user not checked in: the confirmed panel means "confirmed", the
      declined panel exactly "declined", and a confirmation panel
      "admitted". For an undeclined record whose `confirmed` implies
      `admitted`, a submitted panel means "submitted" and the closed
      incomplete panel "incomplete" or "unverified"; the open incomplete
      panel means "incomplete" when not admitted; and with no hacker flag
      set, the unverified panel is exactly "unverified" and the three
      sponsor panels mean "incomplete", "pending" and "approved". */
  lemma PanelsMatchStatusName(u: User, regIsOpen: bool, pastConfirmation: bool)
    requires !u.status.checkedIn
    ensures DashState(u, regIsOpen, pastConfirmation, "confirmed") ==> StatusNameOf(u) == ConfirmedName
    ensures DashState(u, regIsOpen, pastConfirmation, "declined") <==> StatusNameOf(u) == DeclinedName
    ensures DashState(u, regIsOpen, pastConfirmation, "admittedAndCanConfirm") ==> StatusNameOf(u) == AdmittedName
    ensures DashState(u, regIsOpen, pastConfirmation, "admittedAndCannotConfirm") ==> StatusNameOf(u) == AdmittedName
    ensures ConfirmationConsistent(u) && !u.status.declined ==>
      && (DashState(u, regIsOpen, pastConfirmation, "openAndSubmitted") ==> StatusNameOf(u) == SubmittedName)
      && (DashState(u, regIsOpen, pastConfirmation, "closedAndSubmitted") ==> StatusNameOf(u) == SubmittedName)
      && (DashState(u, regIsOpen, pastConfirmation, "closedAndIncomplete") ==>
            StatusNameOf(u) == if u.verified then IncompleteName else UnverifiedName)
    ensures ConfirmationConsistent(u) && !u.status.declined && !u.status.admitted ==>
      (DashState(u, regIsOpen, pastConfirmation, "openAndIncomplete") ==> StatusNameOf(u) == IncompleteName)
    ensures ConfirmationConsistent(u) && !u.status.declined && !u.status.admitted && !u.status.completedProfile ==>
      && (DashState(u, regIsOpen, pastConfirmation, "unverified") <==> StatusNameOf(u) == UnverifiedName)
      && (DashState(u, regIsOpen, pastConfirmation, "isSponsorAndIncomplete") ==> StatusNameOf(u) == IncompleteName)
      && (DashState(u, regIsOpen, pastConfirmation, "isSponsorAndComplete") ==> StatusNameOf(u) == PendingName)
      && (DashState(u, regIsOpen, pastConfirmation, "isSponsorAndGrantedAccess") ==> StatusNameOf(u) == ApprovedName)
  {
  }

  /** For a hacker the waitlist banner is the closed-and-submitted panel;
      for a sponsor the banner does not look at the sponsor flag. */
  lemma WaitlistIsClosedAndSubmitted(u: User, regIsOpen: bool, pastConfirmation: bool)
    ensures !u.sponsor ==> (ShowWaitlist(u, regIsOpen) <==> DashState(u, regIsOpen, pastConfirmation, "closedAndSubmitted"))
    ensures u.sponsor ==> !DashState(u, regIsOpen, pastConfirmation, "closedAndSubmitted")
  {
  }

  // ---------------------------------------------------------------------
  // Deadline placeholders
  // ---------------------------------------------------------------------

  const AppDeadline: string := "[APP_DEADLINE]"
  const ConfirmDeadline: string := "[CONFIRM_DEADLINE]"

  /** The rewrite applied to each dashboard message: when it mentions
      `[APP_DEADLINE]`, the first one becomes the application deadline and
      the next the sponsor deadline; then, when it mentions
      `[CONFIRM_DEADLINE]`, the first one becomes the user's confirmation
      deadline. */
  function SubstituteDeadlines(msg: string, timeClose: string, sponsorTimeClose: string, confirmBy: string): (r: string)
    ensures !Contains(msg, AppDeadline) && !Contains(msg, ConfirmDeadline) ==> r == msg
  {
    var m :=
      if Contains(msg, AppDeadline) then
        ReplaceFirst(ReplaceFirst(msg, AppDeadline, timeClose), AppDeadline, sponsorTimeClose)
      else msg;
    if Contains(m, ConfirmDeadline) then ReplaceFirst(m, ConfirmDeadline, confirmBy) else m
  }

  /** Every placeholder starts with '[' and has no other '['. */
  lemma {:induction false} NoBracketNoOccurrence(s: string, pattern: string, n: nat)
    requires |pattern| > 0 && pattern[0] == '['
    requires n <= |s| && '[' !in s[..n]
    ensures forall j: nat :: j < n ==> !OccursAt(s, pattern, j)
  {
    forall j: nat | j < n
      ensures !OccursAt(s, pattern, j)
    {
      if j + |pattern| <= |s| {
        assert s[..n][j] == s[j] != '[';
        assert s[j..j + |pattern|][0] == s[j];
      }
    }
  }

  lemma NoBracketNotContained(s: string, pattern: string)
    requires |pattern| > 0 && pattern[0] == '['
    requires '[' !in s
    ensures !Contains(s, pattern)
  {
    assert s[..|s|] == s;
    NoBracketNoOccurrence(s, pattern, |s|);
  }

  /** A message with two application placeholders gets the application
      deadline in the first and the sponsor deadline in the second. */
  lemma {:induction false} TwoApplicationDeadlines(a: string, b: string, c: string, timeClose: string, sponsorTimeClose: string, confirmBy: string)
    requires '[' !in a + timeClose + b + sponsorTimeClose + c
    ensures SubstituteDeadlines(a + AppDeadline + b + AppDeadline + c, timeClose, sponsorTimeClose, confirmBy)
            == a + timeClose + b + sponsorTimeClose + c
  {
    var msg := a + AppDeadline + b + AppDeadline + c;
    assert msg == a + AppDeadline + (b + AppDeadline + c);
    assert msg[..|a|] == a;
    NoBracketNoOccurrence(msg, AppDeadline, |a|);
    ReplaceFirstAt(msg, AppDeadline, timeClose, a, b + AppDeadline + c);
    assert OccursAt(msg, AppDeadline, |a|) by {
      assert msg[|a|..|a| + |AppDeadline|] == AppDeadline;
    }
    var m1 := a + timeClose + (b + AppDeadline + c);
    var pre := a + timeClose + b;
    assert m1 == pre + AppDeadline + c;
    assert m1[..|pre|] == pre;
    NoBracketNoOccurrence(m1, AppDeadline, |pre|);
    ReplaceFirstAt(m1, AppDeadline, sponsorTimeClose, pre, c);
    var m2 := pre + sponsorTimeClose + c;
    assert m2 == a + timeClose + b + sponsorTimeClose + c;
    NoBracketNotContained(m2, ConfirmDeadline);
  }

  /** A message with one application placeholder gets the application
      deadline; the sponsor deadline is not used. */
  lemma {:induction false} OneApplicationDeadline(a: string, b: string, timeClose: string, sponsorTimeClose: string, confirmBy: string)
    requires '[' !in a + timeClose + b
    ensures SubstituteDeadlines(a + AppDeadline + b, timeClose, sponsorTimeClose, confirmBy) == a + timeClose + b
  {
    var msg := a + AppDeadline + b;
    assert msg[..|a|] == a;
    NoBracketNoOccurrence(msg, AppDeadline, |a|);
    ReplaceFirstAt(msg, AppDeadline, timeClose, a, b);
    assert OccursAt(msg, AppDeadline, |a|) by {
      assert msg[|a|..|a| + |AppDeadline|] == AppDeadline;
    }
    var m1 := a + timeClose + b;
    NoBracketNotContained(m1, AppDeadline);
    NoBracketNotContained(m1, ConfirmDeadline);
  }

  /** Only the first confirmation placeholder is filled in; later ones stay
      as written. */
  lemma {:induction false} FirstConfirmDeadlineOnly(a: string, b: string, timeClose: string, sponsorTimeClose: string, confirmBy: string)
    requires '[' !in a
    requires !Contains(a + ConfirmDeadline + b, AppDeadline)
    ensures SubstituteDeadlines(a + ConfirmDeadline + b, timeClose, sponsorTimeClose, confirmBy) == a + confirmBy + b
  {
    var msg := a + ConfirmDeadline + b;
    assert msg[..|a|] == a;
    NoBracketNoOccurrence(msg, ConfirmDeadline, |a|);
    assert OccursAt(msg, ConfirmDeadline, |a|) by {
      assert msg[|a|..|a| + |ConfirmDeadline|] == ConfirmDeadline;
    }
    ReplaceFirstAt(msg, ConfirmDeadline, confirmBy, a, b);
  }

  /** A message whose only '[' is one confirmation placeholder holds no
      application placeholder. */
  lemma ConfirmMessageHasNoAppDeadline(a: string, b: string)
    requires '[' !in a + b
    ensures !Contains(a + ConfirmDeadline + b, AppDeadline)
  {
    var msg := a + ConfirmDeadline + b;
    forall j: nat | j <= |msg|
      ensures !OccursAt(msg, AppDeadline, j)
    {
      if j + |AppDeadline| <= |msg| {
        var w := msg[j..j + |AppDeadline|];
        if j == |a| {
          assert w[1] == ConfirmDeadline[1] != AppDeadline[1];
        } else {
          assert w[0] == msg[j];
          if j < |a| {
            assert msg[j] == (a + b)[j];
          } else if j < |a| + |ConfirmDeadline| {
            assert msg[j] == ConfirmDeadline[j - |a|];
          } else {
            assert msg[j] == (a + b)[j - |ConfirmDeadline|];
          }
        }
      }
    }
  }

  /** The rewrite is written back into the one message object shared by the
      whole page session, so a second load finds no placeholder left: a later
      user keeps seeing the first user's confirmation deadline. */
  lemma SecondLoadKeepsFirstDeadline(a: string, b: string, timeClose: string, sponsorTimeClose: string,
                                     confirmBy: string, laterConfirmBy: string)
    requires '[' !in a + confirmBy + b
    ensures var first := SubstituteDeadlines(a + ConfirmDeadline + b, timeClose, sponsorTimeClose, confirmBy);
            && first == a + confirmBy + b
            && SubstituteDeadlines(first, timeClose, sponsorTimeClose, laterConfirmBy) == first
  {
    assert '[' !in a + b by {
      forall i | 0 <= i < |a + b|
        ensures (a + b)[i] != '['
      {
        if i < |a| {
          assert (a + b)[i] == (a + confirmBy + b)[i];
        } else {
          assert (a + b)[i] == (a + confirmBy + b)[i + |confirmBy|];
        }
      }
    }
    ConfirmMessageHasNoAppDeadline(a, b);
    FirstConfirmDeadlineOnly(a, b, timeClose, sponsorTimeClose, confirmBy);
    NoBracketNotContained(a + confirmBy + b, AppDeadline);
    NoBracketNotContained(a + confirmBy + b, ConfirmDeadline);
  }
}
