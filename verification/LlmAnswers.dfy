/** Exactly when the LLM controller accepts a request, what it changes then, and why it
    refuses otherwise. */
module LlmAnswers {
  import opened Wrappers
  import opened Bytes
  import opened LlmEndpoints
  import opened SecretRecords
  import opened LlmConfiguration

  // ---------------------------------------------------------------- endpoints

  /** A configuration has an endpoint exactly with a model that is not blank and a
      hierarchical URL without user, password, query and fragment, over https, or over
      plain http to this machine. */
  lemma EndpointIff(l: Llm)
    ensures Endpoint(l).Some?
       <==> && !IsBlank(l.model) && l.url.Some?
            && var u := l.url.value;
               && u.opaquePath == false && u.hasUser == false && u.hasPassword == false
               && u.hasQuery == false && u.hasFragment == false
               && (u.scheme == "http" ==> u.loopback) && u.scheme in {"http", "https"}
    ensures Endpoint(l).Some? ==> Endpoint(l).value == l.url.value.(path := Endpoint(l).value.path)
  {
  }

  /** What the path becomes, for a base that is no completions path yet: the slashes at
      its end give way to the suffix. */
  lemma {:induction false} EndpointPathOf(base: string, slashes: nat)
    requires base == "" || base[|base| - 1] != '/'
    ensures var path := base + seq(slashes, i => '/');
            && TrimEndSlashes(path) == base
            && EndpointPath(path) == if |base| >= 17 && base[|base| - 17..] == "/chat/completions" then path
                                     else base + "/chat/completions"
    decreases slashes
  {
    var path := base + seq(slashes, i => '/');
    if slashes == 0 {
      assert path == base;
      TrimEndsAt(base);
    } else {
      assert path[|path| - 1] == '/';
      assert path[..|path| - 1] == base + seq(slashes - 1, i => '/');
      EndpointPathOf(base, slashes - 1);
    }
  }

  // ---------------------------------------------------------------- switching

  predicate Differs(s: State, llm: Option<Llm>) {
    Current(s.llm) != Current(llm)
  }

  /** The secrets may be touched: the store can be read and needs no recovery. */
  predicate Mutable(w: World) {
    w.inspected == Ok(NotConfigured) || w.inspected == Ok(Configured)
  }

  /** The request is current: no session runs, the settings load, and their version is
      the one the caller has seen. */
  predicate UpToDate(s: State, expected: nat, w: World) {
    w.idle == NoSession && w.loads && s.version == expected
  }

  /** A switch succeeds exactly when the request is current and either changes nothing,
      or finds the secrets mutable and an endpoint for the new settings, and every step
      of the saga that decides it reports success; clearing the endpoint left behind
      does not decide it. */
  lemma SwitchSucceedsIff(s: State, expected: nat, llm: Option<Llm>, w: World)
    ensures SetLlmSettings(s, expected, llm, w).1.Settings?
       <==> && UpToDate(s, expected, w)
            && (|| s.llm == llm
                || (&& Mutable(w) && (llm.Some? ==> Endpoint(llm.value).Some?)
                    && (llm.Some? && Differs(s, llm) ==> w.preDelete.reported)
                    && w.candidateValid && w.replace.reported))
  {
    hide Endpoint;
  }

  /** Why it is refused, in this order. Up to the first deletion nothing has changed. */
  lemma SwitchRefusals(s: State, expected: nat, llm: Option<Llm>, w: World)
    ensures var (s', a) := SetLlmSettings(s, expected, llm, w);
            && (w.idle == SessionActive ==> a == Refused(Busy) && s' == s)
            && (w.idle == ProbeFails ==> a == Refused(RuntimeUnavailable) && s' == s)
            && (w.idle == NoSession && !w.loads ==> a == Refused(StoreFailed) && s' == s)
            && (w.idle == NoSession && w.loads && s.version != expected ==> a == Refused(VersionConflict) && s' == s)
            && (UpToDate(s, expected, w) && s.llm != llm ==>
                  && (w.inspected.Err? ==> a == Refused(StoreFailed) && s' == s)
                  && (w.inspected == Ok(RecoveryRequired) ==> a == Refused(NeedsRecovery) && s' == s)
                  && (Mutable(w) && llm.Some? && Endpoint(llm.value).None?
                      ==> a == Refused(InvalidConfiguration) && s' == s))
    ensures UpToDate(s, expected, w) && s.llm != llm && Mutable(w) && (llm.Some? ==> Endpoint(llm.value).Some?) ==>
              var (s', a) := SetLlmSettings(s, expected, llm, w);
              if llm.Some? && Differs(s, llm) && !w.preDelete.reported
              then a == Refused(StoreFailed) && s'.llm == s.llm && s'.version == s.version
              else if !w.candidateValid
              then a == Refused(InvalidConfiguration) && s'.llm == s.llm && s'.version == s.version
              else !w.replace.reported ==> a == Refused(StoreFailed)
  {
    hide Endpoint;
  }

  /** A switch to the same settings changes nothing; one that succeeds otherwise counts
      the version up, and of the keys it takes away exactly the new endpoint's, and the
      old one's if deleting it took effect, both only if the endpoint is another. */
  lemma SwitchEffect(s: State, expected: nat, llm: Option<Llm>, w: World)
    requires Truthful(w) && SetLlmSettings(s, expected, llm, w).1.Settings?
    ensures var (s', a) := SetLlmSettings(s, expected, llm, w);
            && a == Settings(s'.version, llm) && s'.llm == llm
            && (s.llm == llm ==> s' == s)
            && (s.llm != llm ==> s'.version == s.version + 1)
            && (forall e :: e in s'.keys ==> e in s.keys && s'.keys[e] == s.keys[e])
            && (forall e :: e in s.keys ==>
                  (e !in s'.keys
                   <==> s.llm != llm && Differs(s, llm)
                        && (Current(llm) == Some(e) || (Current(s.llm) == Some(e) && w.postDelete.applied))))
  {
    hide Endpoint;
  }

  // ---------------------------------------------------------------- keys

  /** A key is 1 to 8192 visible ASCII characters. */
  lemma ValidKeyIff(value: string)
    ensures ValidKey(value) <==> 1 <= |value| <= 8192 && forall c :: c in value ==> '!' <= c <= '~'
  {
    if forall c :: c in value ==> '!' <= c <= '~' {
      assert forall i :: 0 <= i < |value| ==> value[i] in value;
    }
  }

  /** A key is saved exactly when it is valid, no session runs, the settings load and
      name an endpoint, the secrets are mutable, and the write and the inspection that
      follows it report success. */
  lemma SaveSucceedsIff(s: State, value: string, w: World)
    ensures SetApiKey(s, value, w).1.Status?
       <==> && ValidKey(value) && w.idle == NoSession && w.loads && s.llm.Some? && Endpoint(s.llm.value).Some?
            && Mutable(w) && w.write.reported && w.after == Ok(Configured)
    ensures SetApiKey(s, value, w).1.Status? ==> SetApiKey(s, value, w).1 == Status(Configured)
  {
    hide Endpoint;
  }

  lemma SaveRefusals(s: State, value: string, w: World)
    ensures var (s', a) := SetApiKey(s, value, w);
            && (!ValidKey(value) ==> a == Refused(InvalidSecret))
            && (ValidKey(value) && w.idle == SessionActive ==> a == Refused(Busy))
            && (ValidKey(value) && w.idle == ProbeFails ==> a == Refused(RuntimeUnavailable))
            && (ValidKey(value) && w.idle == NoSession ==>
                  && (!w.loads ==> a == Refused(StoreFailed))
                  && (w.loads && s.llm.None? ==> a == Refused(NotSetUp))
                  && (w.loads && s.llm.Some? && Endpoint(s.llm.value).None? ==> a == Refused(InvalidConfiguration))
                  && (w.loads && s.llm.Some? && Endpoint(s.llm.value).Some? ==>
                        && (w.inspected.Err? ==> a == Refused(StoreFailed))
                        && (w.inspected == Ok(RecoveryRequired) ==> a == Refused(NeedsRecovery))
                        && (Mutable(w) && (!w.write.reported || w.after.Err?) ==> a == Refused(StoreFailed))
                        && (Mutable(w) && w.write.reported ==>
                              && (w.after == Ok(RecoveryRequired) ==> a == Refused(NeedsRecovery))
                              && (w.after == Ok(NotConfigured) ==> a == Refused(SecretVerificationFailed)))))
            && (s' != s ==> w.write.applied && ValidKey(value) && w.idle == NoSession && w.loads && Mutable(w))
  {
    hide Endpoint;
  }

  /** Deleting empties the namespace of a readable store, and says so of an empty one. */
  lemma DeleteAnswers(s: State, w: World)
    ensures var (s', a) := DeleteApiKey(s, w);
            && (a.Status? <==> && w.idle == NoSession
                               && (w.inspected == Ok(NotConfigured)
                                   || (w.inspected == Ok(Configured) && w.write.reported)))
            && (a.Status? ==> a == Status(NotConfigured))
            && (w.idle == SessionActive ==> a == Refused(Busy))
            && (w.idle == ProbeFails ==> a == Refused(RuntimeUnavailable))
            && (w.idle == NoSession && w.inspected == Ok(RecoveryRequired) ==> a == Refused(NeedsRecovery))
            && (w.idle == NoSession && (w.inspected.Err? || (w.inspected == Ok(Configured) && !w.write.reported))
                ==> a == Refused(StoreFailed))
            && s' == if w.idle == NoSession && w.inspected == Ok(Configured) && w.write.applied
                     then s.(keys := map[]) else s
  {
  }

  /** A reset needs a store that asks for recovery, and afterwards an empty one. */
  lemma ResetAnswers(s: State, w: World)
    ensures var (s', a) := ResetSecrets(s, w);
            && (a.Status? <==> && w.idle == NoSession && w.inspected == Ok(RecoveryRequired)
                               && w.write.reported && w.after == Ok(NotConfigured))
            && (a.Status? ==> a == Status(NotConfigured))
            && (w.idle == SessionActive ==> a == Refused(Busy))
            && (w.idle == ProbeFails ==> a == Refused(RuntimeUnavailable))
            && (w.idle == NoSession && w.inspected in {Ok(NotConfigured), Ok(Configured)}
                ==> a == Refused(ResetNotNeeded))
            && (w.idle == NoSession && w.inspected == Ok(RecoveryRequired) && w.write.reported
                && w.after in {Ok(Configured), Ok(RecoveryRequired)}
                ==> a == Refused(SecretVerificationFailed))
            && (w.idle == NoSession
                && (w.inspected.Err? || (w.inspected == Ok(RecoveryRequired) && (!w.write.reported || w.after.Err?)))
                ==> a == Refused(StoreFailed))
            && s' == if w.idle == NoSession && w.inspected == Ok(RecoveryRequired) && w.write.applied
                     then s.(keys := map[]) else s
  {
  }
}
