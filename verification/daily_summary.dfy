/** The daily summary: when e-mail is enabled, all certificates are read,
    split by stored status, and one summary is handed to the e-mail service.
    Every exception on the way is caught and logged, so the caller never
    sees one.

    The repository's `findAll()` is a parameter: the list it returns, or the
    exception it throws. The e-mail service is outside the model; the one
    request made to it is recorded. */
module DailySummary {
  import opened Wrappers
  import opened Exceptions
  import opened Certificates
  import opened Configs

  /** The arguments of the one `sendDailySummary` call. */
  datatype SummaryRequest = SummaryRequest(expiringSoon: seq<Certificate>, expired: seq<Certificate>, recipient: Option<string>)

  /** Whether the repository was read, and what was sent. */
  datatype SummaryRun = SummaryRun(queried: bool, sent: Option<SummaryRequest>)

  /** The certificates whose stored status is `s`, in list order: the stream
      filter `cert.getStatus() == s`, under which a null status matches
      nothing. */
  function WithStatus(certs: seq<Certificate>, s: Status): (r: seq<Certificate>)
    ensures |r| <= |certs|
    ensures forall i :: 0 <= i < |r| ==> r[i].status == Some(s)
    decreases |certs|
  {
    if |certs| == 0 then []
    else (if certs[0].status == Some(s) then [certs[0]] else []) + WithStatus(certs[1..], s)
  }

  /** Exactly the certificates with status `s`, each as often as in the
      input. */
  lemma {:induction false} WithStatusCounts(certs: seq<Certificate>, s: Status, x: Certificate)
    ensures multiset(WithStatus(certs, s))[x] == if x.status == Some(s) then multiset(certs)[x] else 0
    decreases |certs|
  {
    if |certs| > 0 {
      WithStatusCounts(certs[1..], s, x);
      assert certs == [certs[0]] + certs[1..];
      assert multiset(certs) == multiset{certs[0]} + multiset(certs[1..]);
    }
  }

  /** Filtering distributes over concatenation, so it keeps list order. */
  lemma {:induction false} WithStatusAppend(a: seq<Certificate>, b: seq<Certificate>, s: Status)
    ensures WithStatus(a + b, s) == WithStatus(a, s) + WithStatus(b, s)
    decreases |a|
  {
    if |a| == 0 {
      assert a + b == b;
    } else {
      var ab := a + b;
      assert ab[0] == a[0] && ab[1..] == a[1..] + b;
      WithStatusAppend(a[1..], b, s);
      var head := if a[0].status == Some(s) then [a[0]] else [];
      assert WithStatus(ab, s) == head + WithStatus(ab[1..], s);
      assert WithStatus(a, s) == head + WithStatus(a[1..], s);
    }
  }

  /** When every status is present, the three lists are a partition of the
      input: together they hold each certificate exactly as often as the
      input does, and so their sizes add up to the total. */
  lemma StatusPartition(certs: seq<Certificate>)
    requires forall i :: 0 <= i < |certs| ==> certs[i].status.Some?
    ensures multiset(WithStatus(certs, ExpiringSoon)) + multiset(WithStatus(certs, Expired)) +
            multiset(WithStatus(certs, Normal)) == multiset(certs)
    ensures |WithStatus(certs, ExpiringSoon)| + |WithStatus(certs, Expired)| + |WithStatus(certs, Normal)| == |certs|
  {
    var sum := multiset(WithStatus(certs, ExpiringSoon)) + multiset(WithStatus(certs, Expired)) + multiset(WithStatus(certs, Normal));
    forall x ensures sum[x] == multiset(certs)[x] {
      WithStatusCounts(certs, ExpiringSoon, x);
      WithStatusCounts(certs, Expired, x);
      WithStatusCounts(certs, Normal, x);
      if x in certs {
        var i :| 0 <= i < |certs| && certs[i] == x;
        assert x.status.Some?;
        match x.status.value
        case ExpiringSoon =>
        case Expired =>
        case Normal =>
      } else {
        assert multiset(certs)[x] == 0;
      }
    }
    assert sum == multiset(certs);
    assert |sum| == |certs|;
  }

  /** No certificate is in two of the lists. */
  lemma StatusListsDisjoint(certs: seq<Certificate>, s1: Status, s2: Status)
    requires s1 != s2
    ensures multiset(WithStatus(certs, s1)) !! multiset(WithStatus(certs, s2))
  {
    forall x ensures multiset(WithStatus(certs, s1))[x] == 0 || multiset(WithStatus(certs, s2))[x] == 0 {
      WithStatusCounts(certs, s1, x);
      WithStatusCounts(certs, s2, x);
    }
  }

  /** `generateAndSendDailySummary(recipientEmail)`. A null entry in the
      repository's list throws inside the first filter and is caught like a
      repository exception: nothing is sent. */
  function GenerateAndSend(enabled: bool, recipient: Option<string>, all: Result<seq<Option<Certificate>>, Exception>)
    : (r: SummaryRun)
    ensures r.queried <==> enabled
    ensures r.sent.Some? <==> enabled && all.Ok? && forall i :: 0 <= i < |all.value| ==> all.value[i].Some?
    ensures r.sent.Some? ==>
      var certs := seq(|all.value|, i requires 0 <= i < |all.value| => all.value[i].value);
      r.sent.value.recipient == recipient &&
      r.sent.value.expiringSoon == WithStatus(certs, ExpiringSoon) &&
      r.sent.value.expired == WithStatus(certs, Expired)
  {
    if !enabled then SummaryRun(false, None)
    else if all.Err? then SummaryRun(true, None)
    else if exists i :: 0 <= i < |all.value| && all.value[i].None? then SummaryRun(true, None)
    else
      var certs := seq(|all.value|, i requires 0 <= i < |all.value| => all.value[i].value);
      SummaryRun(true, Some(SummaryRequest(WithStatus(certs, ExpiringSoon), WithStatus(certs, Expired), recipient)))
  }

  /** `generateAndSendDailySummary()`: the configured flag and default
      recipient. */
  function GenerateAndSendDefault(cfg: EmailConfig, all: Result<seq<Option<Certificate>>, Exception>): (r: SummaryRun)
    ensures r.queried <==> cfg.enabled
    ensures r.sent.Some? <==> cfg.enabled && all.Ok? && forall i :: 0 <= i < |all.value| ==> all.value[i].Some?
    ensures r.sent.Some? ==> r.sent.value.recipient == cfg.defaultRecipient
  {
    GenerateAndSend(cfg.enabled, cfg.defaultRecipient, all)
  }

  /** With the shipped e-mail settings the summary goes to the default
      address. */
  lemma DefaultRecipientUsed(all: seq<Certificate>)
    ensures var r := GenerateAndSendDefault(DefaultEmailConfig(), Ok(seq(|all|, i requires 0 <= i < |all| => Some(all[i]))));
      r.sent.Some? && r.sent.value.recipient == Some(DefaultEmailRecipient) &&
      |r.sent.value.expiringSoon| + |r.sent.value.expired| <= |all|
  {
    var boxed := seq(|all|, i requires 0 <= i < |all| => Some(all[i]));
    var certs := seq(|boxed|, i requires 0 <= i < |boxed| => boxed[i].value);
    assert certs == all;
    SizesBound(all);
  }

  /** The two lists together never hold more entries than the input. */
  lemma {:induction false} SizesBound(certs: seq<Certificate>)
    ensures |WithStatus(certs, ExpiringSoon)| + |WithStatus(certs, Expired)| <= |certs|
    decreases |certs|
  {
    if |certs| > 0 {
      SizesBound(certs[1..]);
    }
  }
}
