/** Which part of the order system each step leaves alone. */
module SagaFrame {
  import opened SagaSystem

  predicate OnCalls(e: Event) {
    e.Send? || e.Route? || e.Admit? || e.RunRedis? || e.RunWorker? || e.FailCall? || e.Return?
  }

  predicate OnRows(e: Event) {
    e.CommitOrder? || e.Persist? || e.OpenRow? || e.Rollback? || e.CommitCancel? || e.CommitConfirm?
  }

  predicate OnQueue(e: Event) {
    e.PushOrder? || e.Pop? || e.Persist? || e.DropOrder?
  }

  /** Events of one order call, which may change that call and no other. */
  predicate OnSaga(e: Event) {
    || e.Send? || e.Return? || e.CommitOrder? || e.PushOrder? || e.AbortOrder? || e.Finish?
    || e.OpenRow? || e.Rollback? || e.CommitCancel? || e.CommitConfirm?
  }

  ghost predicate Frame(s: State, e: Event, s': State) {
    && (!e.RunWorker? && !e.EndHotdeal? ==> s'.db == s.db && s'.had == s.had)
    && (!e.RunRedis? && !e.StartHotdeal? && !e.EndHotdeal? ==> s'.redis == s.redis)
    && (!OnCalls(e) ==> s'.calls == s.calls)
    && (!e.Admit? && !e.RunWorker? ==> s'.channel == s.channel)
    && (!OnRows(e) ==> s'.orders == s.orders)
    && (!OnQueue(e) ==>
        s'.list == s.list && s'.worker == s.worker && s'.accepted == s.accepted && s'.finished == s.finished)
    && (!OnSaga(e) && !e.Arrive? ==> s'.sagas == s.sagas)
    && (OnSaga(e) ==> e.g < |s.sagas| == |s'.sagas| && s'.sagas == s.sagas[e.g := s'.sagas[e.g]])
  }

  lemma {:induction false} WaitFrame(s: State, e: Event)
    requires Enabled(s, e) && (e.Send? || e.Return?)
    ensures Frame(s, e, Next(s, e))
  {
  }

  lemma {:induction false} CallFrame(s: State, e: Event)
    requires Enabled(s, e) && OnCalls(e) && !OnSaga(e)
    ensures Frame(s, e, Next(s, e))
  {
  }

  lemma {:induction false} OrderFrame(s: State, e: Event)
    requires Enabled(s, e) && OnSaga(e) && !OnCalls(e)
    ensures Frame(s, e, Next(s, e))
  {
  }

  lemma {:induction false} OtherFrame(s: State, e: Event)
    requires Enabled(s, e) && !OnSaga(e) && !OnCalls(e)
    ensures Frame(s, e, Next(s, e))
  {
  }

  lemma {:induction false} StepFrame(s: State, e: Event)
    requires Enabled(s, e)
    ensures Frame(s, e, Next(s, e))
  {
    if e.Send? || e.Return? {
      WaitFrame(s, e);
    } else if OnCalls(e) {
      CallFrame(s, e);
    } else if OnSaga(e) {
      OrderFrame(s, e);
    } else {
      OtherFrame(s, e);
    }
  }
}
