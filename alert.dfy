/** The alert decision inside `UpdateAlertView` (views.go:112-131), on values:
    the alert state, the append-only message log and the alert view's
    background colour, after comparing the average hits with the threshold. */
module Alert {
  import opened Text
  import opened Report

  datatype Color = ColorDefault | ColorRed | ColorGreen

  /** The fixed text before the average in each message. The first word is
      written as a literal of its own so that the verifier can read the
      letter that tells the two kinds apart ('H' or 'L') without unfolding
      the whole literal. */
  const HighWords: string := "High" + " traffic generated an alert - average hits = "
  const LowWords: string := "Low" + " traffic generated a recover - average hits = "
  const HighPrefix: string := Margin + HighWords
  const LowPrefix: string := Margin + LowWords
  const TriggeredAt: string := ", triggered at "

  /** The message appended when the average is above the threshold: it
      opens with the alert prefix and ends with the date. */
  function AlertText(avgHits: int, date: string): (r: string)
    ensures IsAlertText(r)
    ensures |date| <= |r| && r[|r| - |date|..] == date
  {
    var r := HighPrefix + IntToString(avgHits) + TriggeredAt + date;
    assert r[..|HighPrefix|] == HighPrefix;
    assert r[|r| - |date|..] == date;
    r
  }

  /** The message appended when an alert recovers, likewise. */
  function RecoverText(avgHits: int, date: string): (r: string)
    ensures IsRecoverText(r)
    ensures |date| <= |r| && r[|r| - |date|..] == date
  {
    var r := LowPrefix + IntToString(avgHits) + TriggeredAt + date;
    assert r[..|LowPrefix|] == LowPrefix;
    assert r[|r| - |date|..] == date;
    r
  }

  /** The average can be read back from an alert message, between the
      prefix and ", triggered at". */
  lemma AlertCarriesAverage(avgHits: int, date: string)
    ensures var a := AlertText(avgHits, date);
      |HighPrefix| + |TriggeredAt| + |date| <= |a| &&
      ParseInt(a[|HighPrefix|..|a| - (|TriggeredAt| + |date|)]) == avgHits
  {
    CarriesAverage(HighPrefix, avgHits, date);
  }

  /** Likewise for a recovery message. */
  lemma RecoverCarriesAverage(avgHits: int, date: string)
    ensures var r := RecoverText(avgHits, date);
      |LowPrefix| + |TriggeredAt| + |date| <= |r| &&
      ParseInt(r[|LowPrefix|..|r| - (|TriggeredAt| + |date|)]) == avgHits
  {
    CarriesAverage(LowPrefix, avgHits, date);
  }

  lemma CarriesAverage(prefix: string, avgHits: int, date: string)
    ensures var a := prefix + IntToString(avgHits) + TriggeredAt + date;
      |prefix| + |TriggeredAt| + |date| <= |a| &&
      ParseInt(a[|prefix|..|a| - (|TriggeredAt| + |date|)]) == avgHits
  {
    var suffix := TriggeredAt + date;
    ReadBackInt(prefix, avgHits, suffix);
    assert prefix + IntToString(avgHits) + suffix == prefix + IntToString(avgHits) + TriggeredAt + date;
  }

  predicate IsAlertText(s: string)
  {
    |HighPrefix| <= |s| && s[..|HighPrefix|] == HighPrefix
  }

  predicate IsRecoverText(s: string)
  {
    |LowPrefix| <= |s| && s[..|LowPrefix|] == LowPrefix
  }

  /** An alert message is never a recovery message: the two prefixes differ
      in the letter after the margin. */
  lemma AlertIsNotRecover(s: string)
    requires IsAlertText(s)
    ensures !IsRecoverText(s)
  {
    assert HighWords[0] == 'H' && LowWords[0] == 'L';
    assert HighPrefix[|Margin|] == 'H' && LowPrefix[|Margin|] == 'L';
    assert s[|Margin|] == s[..|HighPrefix|][|Margin|] == 'H';
    assert |LowPrefix| <= |s| ==> s[..|LowPrefix|][|Margin|] == s[|Margin|];
  }

  /** Alert and recovery messages are told apart by their opening words. */
  lemma TextsDiffer(avgHits: int, date: string)
    ensures IsAlertText(AlertText(avgHits, date)) && !IsRecoverText(AlertText(avgHits, date))
    ensures IsRecoverText(RecoverText(avgHits, date)) && !IsAlertText(RecoverText(avgHits, date))
  {
    AlertIsNotRecover(AlertText(avgHits, date));
    if IsAlertText(RecoverText(avgHits, date)) {
      AlertIsNotRecover(RecoverText(avgHits, date));
    }
  }

  /** `lw.AlertState`, `lw.AlertMsg` and `alertV.BgColor`. */
  datatype AlertStatus = AlertStatus(alerting: bool, msgs: seq<string>, color: Color)

  /** As the program starts: no alert, no message, the layout's default colour. */
  const Initial := AlertStatus(false, [], ColorDefault)

  /** One evaluation of the alert rule on the average hits of the last
      alert interval. Above the threshold an alert is logged every time,
      even when already alerting; below it a recovery is logged only when
      alerting; exactly at the threshold nothing happens. */
  function Evaluate(st: AlertStatus, avgHits: int, threshold: int, date: string): (r: AlertStatus)
    ensures st.msgs <= r.msgs && |r.msgs| <= |st.msgs| + 1
  {
    if avgHits > threshold then
      AlertStatus(true, st.msgs + [AlertText(avgHits, date)], ColorRed)
    else if avgHits < threshold then
      if st.alerting then AlertStatus(false, st.msgs + [RecoverText(avgHits, date)], ColorGreen)
      else st.(color := ColorDefault)
    else st
  }

  /** The new state in one formula: alerting after the evaluation exactly
      when the average is above the threshold, or sits at it while alerting. */
  lemma EvaluateState(st: AlertStatus, avgHits: int, threshold: int, date: string)
    ensures Evaluate(st, avgHits, threshold, date).alerting
            <==> avgHits > threshold || (st.alerting && avgHits == threshold)
  {
  }

  /** The log only grows, by at most one message: an alert exactly when the
      average is above the threshold, a recovery exactly when it is below
      while alerting, and nothing otherwise (in particular at the threshold). */
  lemma EvaluateLog(st: AlertStatus, avgHits: int, threshold: int, date: string)
    ensures var msgs := Evaluate(st, avgHits, threshold, date).msgs;
      && |st.msgs| <= |msgs| <= |st.msgs| + 1
      && msgs[..|st.msgs|] == st.msgs
      && (|msgs| == |st.msgs| + 1 <==> avgHits > threshold || (avgHits < threshold && st.alerting))
      && (avgHits > threshold ==> msgs[|st.msgs|] == AlertText(avgHits, date))
      && (avgHits < threshold && st.alerting ==> msgs[|st.msgs|] == RecoverText(avgHits, date))
  {
  }

  /** The background is red after an alert, green after a recovery, the
      default colour below the threshold when not alerting, and unchanged at
      the threshold. */
  lemma EvaluateColor(st: AlertStatus, avgHits: int, threshold: int, date: string)
    ensures var c := Evaluate(st, avgHits, threshold, date).color;
      && (avgHits > threshold ==> c == ColorRed)
      && (avgHits < threshold && st.alerting ==> c == ColorGreen)
      && (avgHits < threshold && !st.alerting ==> c == ColorDefault)
      && (avgHits == threshold ==> c == st.color)
  {
  }

  /** Every message is an alert or a recovery, and every recovery directly
      follows an alert. */
  ghost predicate WellFormedLog(msgs: seq<string>)
  {
    && (forall i :: 0 <= i < |msgs| ==> IsAlertText(msgs[i]) || IsRecoverText(msgs[i]))
    && (forall i :: 0 <= i < |msgs| && IsRecoverText(msgs[i]) ==> 0 < i && IsAlertText(msgs[i - 1]))
  }

  /** What the evaluations keep true: the state says "alerting" exactly when
      the last message is an alert, which is exactly when the view is red. */
  ghost predicate Consistent(st: AlertStatus)
  {
    && WellFormedLog(st.msgs)
    && (st.alerting <==> |st.msgs| > 0 && IsAlertText(st.msgs[|st.msgs| - 1]))
    && (st.alerting <==> st.color == ColorRed)
  }

  lemma InitialConsistent()
    ensures Consistent(Initial)
  {
  }



  /** Every evaluation keeps the alert status consistent. */
  lemma EvaluatePreserves(st: AlertStatus, avgHits: int, threshold: int, date: string)
    requires Consistent(st)
    ensures Consistent(Evaluate(st, avgHits, threshold, date))
  {
    if avgHits > threshold {
      ConsistentAfterAlert(st, AlertText(avgHits, date));
    } else if avgHits < threshold && st.alerting {
      ConsistentAfterRecover(st, RecoverText(avgHits, date));
    }
  }

  lemma ConsistentAfterAlert(st: AlertStatus, m: string)
    requires Consistent(st) && IsAlertText(m)
    ensures Consistent(AlertStatus(true, st.msgs + [m], ColorRed))
  {
    AlertIsNotRecover(m);
    AppendPreserves(st.msgs, m);
    assert (st.msgs + [m])[|st.msgs|] == m;
  }

  lemma ConsistentAfterRecover(st: AlertStatus, m: string)
    requires Consistent(st) && st.alerting && IsRecoverText(m)
    ensures Consistent(AlertStatus(false, st.msgs + [m], ColorGreen))
  {
    if IsAlertText(m) {
      AlertIsNotRecover(m);
    }
    AppendPreserves(st.msgs, m);
    assert (st.msgs + [m])[|st.msgs|] == m;
  }

  /** Appending an alert, or a recovery right after an alert, keeps the log
      well formed. */
  lemma AppendPreserves(msgs: seq<string>, m: string)
    requires WellFormedLog(msgs)
    requires IsAlertText(m) != IsRecoverText(m)
    requires IsRecoverText(m) ==> msgs != [] && IsAlertText(msgs[|msgs| - 1])
    ensures WellFormedLog(msgs + [m])
  {
    var msgs' := msgs + [m];
    forall i | 0 <= i < |msgs'|
      ensures IsAlertText(msgs'[i]) || IsRecoverText(msgs'[i])
      ensures IsRecoverText(msgs'[i]) ==> 0 < i && IsAlertText(msgs'[i - 1])
    {
      if i < |msgs| {
        assert msgs'[i] == msgs[i];
        if 0 < i { assert msgs'[i - 1] == msgs[i - 1]; }
      } else if 0 < i {
        assert msgs'[i - 1] == msgs[i - 1];
      }
    }
  }

  /** Two recovery messages are never next to each other in a consistent log. */
  lemma NoAdjacentRecoveries(st: AlertStatus, i: int)
    requires Consistent(st)
    requires 0 <= i && i + 1 < |st.msgs|
    ensures !(IsRecoverText(st.msgs[i]) && IsRecoverText(st.msgs[i + 1]))
  {
    if IsRecoverText(st.msgs[i + 1]) {
      assert IsAlertText(st.msgs[i]);
      var s := st.msgs[i];
      assert HighWords[0] == 'H' && LowWords[0] == 'L';
      assert HighPrefix[|Margin|] == 'H' && LowPrefix[|Margin|] == 'L';
      assert s[..|HighPrefix|][|Margin|] == 'H';
      if IsRecoverText(s) {
        assert false;
      }
    }
  }

  /** A run of evaluations, one per alert tick. */
  function EvaluateAll(st: AlertStatus, avgs: seq<int>, threshold: int, dates: seq<string>): AlertStatus
    requires |dates| == |avgs|
  {
    if avgs == [] then st
    else
      var n := |avgs| - 1;
      Evaluate(EvaluateAll(st, avgs[..n], threshold, dates[..n]), avgs[n], threshold, dates[n])
  }

  /** From the start-up state, after any run of alert ticks, the state is
      true exactly when the log's last message is an alert. */
  lemma {:induction false} RunConsistent(avgs: seq<int>, threshold: int, dates: seq<string>)
    requires |dates| == |avgs|
    ensures Consistent(EvaluateAll(Initial, avgs, threshold, dates))
  {
    if avgs != [] {
      var n := |avgs| - 1;
      RunConsistent(avgs[..n], threshold, dates[..n]);
      EvaluatePreserves(EvaluateAll(Initial, avgs[..n], threshold, dates[..n]), avgs[n], threshold, dates[n]);
    }
  }

  /** Unlike a two-state trigger, the code logs a second alert when the
      average stays above the threshold on the next tick. */
  lemma RepeatedAlert(threshold: int, d1: string, d2: string)
    ensures var st := Evaluate(Evaluate(Initial, threshold + 1, threshold, d1), threshold + 1, threshold, d2);
      st.alerting && st.msgs == [AlertText(threshold + 1, d1), AlertText(threshold + 1, d2)]
  {
  }
}
