/**
 Capability resolution (`OnvifServiceSelector.TryCreateService`): walk a
 service type's ordered candidate WSDL namespaces, look each up in the
 device's namespace-to-URL map, and return the first instance whose
 construction yields one. A construction that throws is swallowed and the
 search goes on; a construction that yields `null` also lets it go on.
 */
module ServiceSelector {
  import opened Outcomes

  /** What `T.CreateAsync(url, binding, username, password, wsdl)` did for one candidate. */
  datatype Construction<S> = Built(instance: Option<S>) | Threw(fault: Fault)

  /** One construction attempt: the URL taken from the map, and the candidate passed as profile. */
  datatype Attempt = Attempt(url: string, wsdl: string)

  /** The selected instance (or `null`) and the constructions attempted, in order. */
  datatype Resolution<S> = Resolution(service: Option<S>, attempts: seq<Attempt>)

  /** Candidate `wsdl` is in the map and constructing it yields an instance. */
  predicate Succeeds<S>(services: map<string, string>, create: (string, string) -> Construction<S>, wsdl: string)
  {
    wsdl in services && create(services[wsdl], wsdl).Built? && create(services[wsdl], wsdl).instance.Some?
  }

  /** `k` is the first succeeding candidate. */
  ghost predicate FirstSuccess<S>(candidates: seq<string>, services: map<string, string>,
                                  create: (string, string) -> Construction<S>, k: int)
  {
    && 0 <= k < |candidates|
    && Succeeds(services, create, candidates[k])
    && forall j :: 0 <= j < k ==> !Succeeds(services, create, candidates[j])
  }

  /** `r` selected candidate `k`: the first succeeding one, after attempting exactly the
      present candidates up to and including it. */
  ghost predicate IsSelection<S>(candidates: seq<string>, services: map<string, string>,
                                 create: (string, string) -> Construction<S>, k: int, r: Resolution<S>)
  {
    && FirstSuccess(candidates, services, create, k)
    && r.service == create(services[candidates[k]], candidates[k]).instance
    && r.attempts == PresentAttempts(candidates[..k + 1], services)
  }

  /** One attempt for each candidate present in the map, in candidate order. */
  function PresentAttempts(candidates: seq<string>, services: map<string, string>): seq<Attempt>
  {
    if |candidates| == 0 then []
    else
      var w := candidates[0];
      (if w in services then [Attempt(services[w], w)] else []) + PresentAttempts(candidates[1..], services)
  }

  function TryCreateService<S>(candidates: seq<string>, services: map<string, string>,
                               create: (string, string) -> Construction<S>): (r: Resolution<S>)
    ensures r.service.None? <==> forall i :: 0 <= i < |candidates| ==> !Succeeds(services, create, candidates[i])
    ensures r.service.None? ==> r.attempts == PresentAttempts(candidates, services)
    ensures r.service.Some? ==> exists k :: IsSelection(candidates, services, create, k, r)
  {
    if |candidates| == 0 then Resolution(None, [])
    else
      var w := candidates[0];
      if Succeeds(services, create, w) then
        var r := Resolution(create(services[w], w).instance, [Attempt(services[w], w)]);
        assert candidates[..1][1..] == [];
        assert IsSelection(candidates, services, create, 0, r);
        r
      else
        var rest := TryCreateService(candidates[1..], services, create);
        var tried := if w in services then [Attempt(services[w], w)] else [];
        assert forall i :: 1 <= i < |candidates| ==> candidates[i] == candidates[1..][i - 1];
        if rest.service.Some? then
          var r := Resolution(rest.service, tried + rest.attempts);
          assert exists k :: IsSelection(candidates, services, create, k, r) by {
            var k :| IsSelection(candidates[1..], services, create, k, rest);
            assert candidates[..k + 2][1..] == candidates[1..][..k + 1];
            assert IsSelection(candidates, services, create, k + 1, r);
          }
          r
        else
          Resolution(None, tried + rest.attempts)
  }

  /** Every attempt constructs a candidate that is in the map, at the map's URL for it. */
  lemma {:induction false} AttemptsUseMapUrls(candidates: seq<string>, services: map<string, string>)
    ensures forall a :: a in PresentAttempts(candidates, services) ==>
      a.wsdl in candidates && a.wsdl in services && a.url == services[a.wsdl]
  {
    if |candidates| > 0 {
      AttemptsUseMapUrls(candidates[1..], services);
    }
  }

  /** With no candidate in the map the result is `null` and nothing is constructed. */
  lemma {:induction false} NoCandidatePresent<S>(candidates: seq<string>, services: map<string, string>,
                                                 create: (string, string) -> Construction<S>)
    requires forall i :: 0 <= i < |candidates| ==> candidates[i] !in services
    ensures TryCreateService(candidates, services, create) == Resolution(None, [])
  {
    if |candidates| > 0 {
      NoCandidatePresent(candidates[1..], services, create);
    }
  }

  /** A candidate being present does not make the result non-null: its construction may throw. */
  lemma PresentCandidateMayResolveToNull()
    ensures var create := (url: string, wsdl: string) => Threw(CommunicationFault);
      var r := TryCreateService<int>(["ver10/media"], map["ver10/media" := "http://h/media"], create);
      r.service.None? && r.attempts == [Attempt("http://h/media", "ver10/media")]
  {
    var create := (url: string, wsdl: string) => Threw(CommunicationFault);
    assert !Succeeds<int>(map["ver10/media" := "http://h/media"], create, "ver10/media");
    assert ["ver10/media"][1..] == [];
  }

  /** The first candidate is absent, so the second one is constructed and selected. */
  lemma SecondCandidateSelected()
    ensures var create := (url: string, wsdl: string) => Built(Some(url));
      TryCreateService(["ver20/media", "ver10/media"], map["ver10/media" := "http://h/media"], create)
        == Resolution(Some("http://h/media"), [Attempt("http://h/media", "ver10/media")])
  {
    var create := (url: string, wsdl: string) => Built(Some(url));
    var services := map["ver10/media" := "http://h/media"];
    var cands := ["ver20/media", "ver10/media"];
    assert !Succeeds(services, create, cands[0]);
    assert Succeeds(services, create, cands[1]);
    assert cands[1..] == ["ver10/media"];
    assert cands[1..][1..] == [];
  }
}
