/**
 The operator: a reconcile loop that drives one custom resource to a Pod and a Service,
 reports their state, and deletes the resource once it has lived or idled too long. Strings
 are sequences of bytes, one character for each.
 */
module Reconciler {
  import opened Wrappers
  import Text

  type Time = int

  const SECOND: Time := 1_000_000_000
  const MINUTE: Time := 60 * SECOND
  const HOUR: Time := 60 * MINUTE

  /** The API stores times in whole seconds. */
  function Stored(t: Time): (r: Time)
    ensures r <= t < r + SECOND
  {
    t / SECOND * SECOND
  }

  type Labels = map<string, string>

  datatype InstancePhase = Unset | Pending | Running | Ready | Failed

  datatype Message =
    | NoMessage
    | SecretNotFound(secret: string)
    | PodNotEnsured
    | ServiceNotEnsured
    | PodIsReady
    | WaitingForReadiness
    | PodHasFailed
    | PodPhaseIs(phase: string)

  datatype Condition = Condition(kind: string, status: string)

  datatype Pod = Pod(labels: Labels, port: int, phase: string, conditions: seq<Condition>)

  datatype Service = Service(selector: Labels, port: int, clusterIP: string)

  /** The durations are those that parse. */
  datatype Spec = Spec(targetName: string, subjectKey: string, port: int, secretRef: string,
                       maxLifetime: Option<Time>, idleTTL: Option<Time>)
  {
    function Port(): int {
      if port == 0 then 8080 else port
    }

    function Lifetime(): Time {
      if maxLifetime.Some? then maxLifetime.value else 24 * HOUR
    }

    function Idle(): Time {
      if idleTTL.Some? then idleTTL.value else 30 * MINUTE
    }
  }

  datatype Status = Status(phase: InstancePhase, podName: string, serviceURL: string,
                           startedAt: Option<Time>, lastUsedAt: Option<Time>, message: Message)

  const EMPTY_STATUS := Status(Unset, "", "", None, None, NoMessage)

  datatype Instance = Instance(spec: Spec, status: Status)

  /** What the API server holds under the name of one instance; `secrets` says which are owned by it. */
  datatype Cluster = Cluster(name: string, space: string, clock: Time, instance: Option<Instance>,
                             pod: Option<Pod>, service: Option<Service>, secrets: map<string, bool>)

  /** Which calls of one reconcile succeed, and the address given to a Service it creates. */
  datatype Api = Api(get: bool, remove: bool, secretGet: bool, secretOwned: bool,
                     podGet: bool, podOwner: bool, podCreate: bool,
                     serviceGet: bool, serviceOwner: bool, serviceCreate: bool,
                     urlGet: bool, statusUpdate: bool, ip: string)
  {
    predicate Faultless() {
      && get && remove && secretGet && secretOwned && podGet && podOwner && podCreate
      && serviceGet && serviceOwner && serviceCreate && urlGet && statusUpdate
    }
  }

  datatype Outcome = Done | Requeue(after: Time) | Retry

  // ---------- Labels ----------

  const MAX_LABEL := 63

  function CleanChar(c: char): char {
    if 'a' <= c <= 'z' || 'A' <= c <= 'Z' || '0' <= c <= '9' || c == '-' || c == '_' || c == '.' then c else '-'
  }

  function Clean(s: string): (r: string)
    ensures |r| == |s| && forall i :: 0 <= i < |s| ==> r[i] == CleanChar(s[i])
  {
    seq(|s|, i requires 0 <= i < |s| => CleanChar(s[i]))
  }

  function LabelValue(s: string): string {
    if |s| > MAX_LABEL then Clean(s)[..MAX_LABEL] else Clean(s)
  }

  method SanitizeLabel(s: string) returns (r: string)
    ensures r == LabelValue(s)
  {
    r := "";
    for i := 0 to |s|
      invariant r == Clean(s)[..i]
    {
      if 'a' <= s[i] <= 'z' || 'A' <= s[i] <= 'Z' || '0' <= s[i] <= '9' || s[i] == '-' || s[i] == '_' || s[i] == '.' {
        r := r + [s[i]];
      } else {
        r := r + ['-'];
      }
    }
    if |r| > MAX_LABEL {
      r := r[..MAX_LABEL];
    }
  }

  function InstanceLabels(target: string, subject: string): Labels {
    map["reflow.io/managed-by" := "reflow-operator", "reflow.io/target" := target, "reflow.io/subject-key" := subject]
  }

  function LabelsOf(spec: Spec): Labels {
    InstanceLabels(spec.targetName, LabelValue(spec.subjectKey))
  }

  predicate Selects(selector: Labels, labels: Labels) {
    forall k :: k in selector ==> k in labels && labels[k] == selector[k]
  }

  // ---------- One reconcile ----------

  predicate ShouldCollect(i: Instance, now: Time) {
    || (i.status.startedAt.Some? && now - i.status.startedAt.value > i.spec.Lifetime())
    || (i.status.lastUsedAt.Some? && now - i.status.lastUsedAt.value > i.spec.Idle())
  }

  function EnsuredPod(spec: Spec, pod: Option<Pod>, api: Api): Option<Pod> {
    if !api.podGet then None
    else if pod.Some? then pod
    else if api.podOwner && api.podCreate then Some(Pod(LabelsOf(spec), spec.Port(), "Pending", []))
    else None
  }

  function EnsuredService(spec: Spec, service: Option<Service>, api: Api): Option<Service> {
    if !api.serviceGet then None
    else if service.Some? then service
    else if api.serviceOwner && api.serviceCreate then Some(Service(LabelsOf(spec), spec.Port(), api.ip))
    else None
  }

  function Url(host: string, port: int): string {
    "http://" + host + ":" + Text.SignedDecimal(port)
  }

  function Host(c: Cluster, api: Api): (host: string)
    ensures host != ""
  {
    if api.urlGet && c.service.Some? && c.service.value.clusterIP != "" then c.service.value.clusterIP
    else c.name + "." + c.space + ".svc.cluster.local"
  }

  predicate PodReady(pod: Pod) {
    pod.phase == "Running" && Condition("Ready", "True") in pod.conditions
  }

  function FirstTime(t: Option<Time>, now: Time): Option<Time> {
    if t.Some? then t else Some(Stored(now))
  }

  function SyncedStatus(c: Cluster, i: Instance, pod: Pod, api: Api): Status {
    if PodReady(pod) then
      Status(Ready, c.name, Url(Host(c, api), i.spec.Port()),
             FirstTime(i.status.startedAt, c.clock), FirstTime(i.status.lastUsedAt, c.clock), PodIsReady)
    else if pod.phase == "Running" then i.status.(phase := Running, podName := c.name, message := WaitingForReadiness)
    else if pod.phase == "Failed" then i.status.(phase := Failed, podName := c.name, message := PodHasFailed)
    else i.status.(phase := Pending, podName := c.name, message := PodPhaseIs(pod.phase))
  }

  /** A status reaches the server or, when the update fails, is lost. */
  function Written(c: Cluster, i: Instance, status: Status, after: Time, api: Api): (Cluster, Outcome) {
    if api.statusUpdate then (c.(instance := Some(i.(status := status))), Requeue(after)) else (c, Retry)
  }

  function FailedWith(c: Cluster, i: Instance, message: Message, api: Api): (Cluster, Outcome) {
    Written(c, i, i.status.(phase := Failed, message := message), MINUTE, api)
  }

  function Driven(c: Cluster, i: Instance, api: Api): (Cluster, Outcome) {
    var pod := EnsuredPod(i.spec, c.pod, api);
    if pod.None? then FailedWith(c, i, PodNotEnsured, api)
    else
      var c1 := c.(pod := pod);
      var service := EnsuredService(i.spec, c.service, api);
      if service.None? then FailedWith(c1, i, ServiceNotEnsured, api)
      else
        var c2 := c1.(service := service);
        Written(c2, i, SyncedStatus(c2, i, pod.value, api), 30 * SECOND, api)
  }

  function Adopted(c: Cluster, i: Instance, api: Api): Cluster {
    if i.spec.secretRef != "" && api.secretOwned then c.(secrets := c.secrets[i.spec.secretRef := true]) else c
  }

  function Reconciled(c: Cluster, api: Api): (Cluster, Outcome) {
    if !api.get then (c, Retry)
    else if c.instance.None? then (c, Done)
    else
      var i := c.instance.value;
      if ShouldCollect(i, c.clock) then
        if api.remove then (c.(instance := None), Done) else (c, Retry)
      else if i.spec.secretRef != "" && !api.secretGet then (c, Retry)
      else if i.spec.secretRef != "" && i.spec.secretRef !in c.secrets then FailedWith(c, i, SecretNotFound(i.spec.secretRef), api)
      else
        Driven(Adopted(c, i, api), i, api)
  }

  /** The reconciler and the objects it creates and updates. */
  class Controller {
    const name: string
    const space: string
    var clock: Time
    var instance: Option<Instance>
    var pod: Option<Pod>
    var service: Option<Service>
    var secrets: map<string, bool>

    constructor (name: string, space: string, clock: Time)
      ensures View() == Cluster(name, space, clock, None, None, None, map[])
    {
      this.name, this.space, this.clock := name, space, clock;
      instance, pod, service, secrets := None, None, None, map[];
    }

    function View(): Cluster
      reads this
    {
      Cluster(name, space, clock, instance, pod, service, secrets)
    }

    method GarbageCollectable(i: Instance) returns (collect: bool)
      ensures collect == ShouldCollect(i, clock)
    {
      if i.status.startedAt.Some? {
        var maxLifetime := if i.spec.maxLifetime.Some? then i.spec.maxLifetime.value else 24 * HOUR;
        if clock - i.status.startedAt.value > maxLifetime {
          return true;
        }
      }
      if i.status.lastUsedAt.Some? {
        var idleTTL := if i.spec.idleTTL.Some? then i.spec.idleTTL.value else 30 * MINUTE;
        if clock - i.status.lastUsedAt.value > idleTTL {
          return true;
        }
      }
      return false;
    }

    method EnsurePod(i: Instance, api: Api) returns (r: Option<Pod>)
      modifies this`pod
      ensures r == EnsuredPod(i.spec, old(pod), api)
      ensures pod == if r.Some? then r else old(pod)
    {
      if !api.podGet {
        return None;
      }
      if pod.Some? {
        return pod;
      }
      var port := i.spec.port;
      if port == 0 {
        port := 8080;
      }
      var subject := SanitizeLabel(i.spec.subjectKey);
      if !api.podOwner || !api.podCreate {
        return None;
      }
      pod := Some(Pod(InstanceLabels(i.spec.targetName, subject), port, "Pending", []));
      return pod;
    }

    method EnsureService(i: Instance, api: Api) returns (ok: bool)
      modifies this`service
      ensures ok == EnsuredService(i.spec, old(service), api).Some?
      ensures service == if ok then EnsuredService(i.spec, old(service), api) else old(service)
    {
      if !api.serviceGet {
        return false;
      }
      if service.Some? {
        return true;
      }
      var port := i.spec.port;
      if port == 0 {
        port := 8080;
      }
      var subject := SanitizeLabel(i.spec.subjectKey);
      if !api.serviceOwner || !api.serviceCreate {
        return false;
      }
      service := Some(Service(InstanceLabels(i.spec.targetName, subject), port, api.ip));
      return true;
    }

    method CheckReady(p: Pod) returns (ready: bool)
      ensures ready == (Condition("Ready", "True") in p.conditions)
    {
      ready := false;
      for k := 0 to |p.conditions|
        invariant !ready && Condition("Ready", "True") !in p.conditions[..k]
      {
        if p.conditions[k].kind == "Ready" && p.conditions[k].status == "True" {
          return true;
        }
      }
    }

    method WriteStatus(i: Instance, status: Status, after: Time, api: Api) returns (out: Outcome)
      modifies this`instance
      ensures (View(), out) == Written(old(View()), i, status, after, api)
    {
      if !api.statusUpdate {
        return Retry;
      }
      instance := Some(i.(status := status));
      return Requeue(after);
    }

    method SyncStatus(i: Instance, p: Pod, api: Api) returns (out: Outcome)
      modifies this`instance
      ensures (View(), out) == Written(old(View()), i, SyncedStatus(old(View()), i, p, api), 30 * SECOND, api)
    {
      var port := i.spec.port;
      if port == 0 {
        port := 8080;
      }
      var status := i.status.(podName := name);
      if p.phase == "Running" {
        var ready := CheckReady(p);
        if ready {
          var url := Url(name + "." + space + ".svc.cluster.local", port);
          if api.urlGet && service.Some? && service.value.clusterIP != "" {
            url := Url(service.value.clusterIP, port);
          }
          status := status.(phase := Ready, serviceURL := url, message := PodIsReady);
          if status.startedAt.None? {
            status := status.(startedAt := Some(Stored(clock)));
          }
          if status.lastUsedAt.None? {
            status := status.(lastUsedAt := Some(Stored(clock)));
          }
        } else {
          status := status.(phase := Running, message := WaitingForReadiness);
        }
      } else if p.phase == "Failed" {
        status := status.(phase := Failed, message := PodHasFailed);
      } else {
        status := status.(phase := Pending, message := PodPhaseIs(p.phase));
      }
      out := WriteStatus(i, status, 30 * SECOND, api);
    }

    method UpdateStatus(i: Instance, phase: InstancePhase, message: Message, api: Api) returns (out: Outcome)
      modifies this`instance
      ensures (View(), out) ==
              Written(old(View()), i, i.status.(phase := phase, message := message), if phase == Failed then MINUTE else 30 * SECOND, api)
    {
      var after := if phase == Failed then MINUTE else 30 * SECOND;
      out := WriteStatus(i, i.status.(phase := phase, message := message), after, api);
    }

    method Drive(i: Instance, api: Api) returns (out: Outcome)
      modifies this`instance, this`pod, this`service
      ensures (View(), out) == Driven(old(View()), i, api)
    {
      var p := EnsurePod(i, api);
      if p.None? {
        out := UpdateStatus(i, Failed, PodNotEnsured, api);
        return;
      }
      var ok := EnsureService(i, api);
      if !ok {
        out := UpdateStatus(i, Failed, ServiceNotEnsured, api);
        return;
      }
      out := SyncStatus(i, p.value, api);
    }

    method Reconcile(api: Api) returns (out: Outcome)
      modifies this`instance, this`pod, this`service, this`secrets
      ensures (View(), out) == Reconciled(old(View()), api)
    {
      if !api.get {
        return Retry;
      }
      if instance.None? {
        return Done;
      }
      var i := instance.value;
      var collect := GarbageCollectable(i);
      if collect {
        if !api.remove {
          return Retry;
        }
        instance := None;
        return Done;
      }
      if i.spec.secretRef != "" {
        if !api.secretGet {
          return Retry;
        }
        if i.spec.secretRef !in secrets {
          out := UpdateStatus(i, Failed, SecretNotFound(i.spec.secretRef), api);
          return;
        }
        if api.secretOwned {
          secrets := secrets[i.spec.secretRef := true];
        }
      }
      out := Drive(i, api);
    }
  }

  // ---------- What one reconcile does ----------

  predicate SecretPresent(c: Cluster, i: Instance) {
    i.spec.secretRef == "" || i.spec.secretRef in c.secrets
  }

  /** Whatever fails, a reconcile never touches an existing Pod or Service, nor a start time once it is set. */
  lemma NeverReplaces(c: Cluster, api: Api)
    ensures var after := Reconciled(c, api).0;
            && (c.pod.Some? ==> after.pod == c.pod)
            && (c.service.Some? ==> after.service == c.service)
            && (c.instance.Some? && c.instance.value.status.startedAt.Some? && after.instance.Some? ==>
                  after.instance.value.status.startedAt == c.instance.value.status.startedAt)
  {
  }

  /** More than the maximal lifetime past the start (24 h if none parses), or than the idle limit past the last use (30 min). */
  predicate PastLimits(spec: Spec, status: Status, now: Time) {
    || (status.startedAt.Some? &&
        status.startedAt.value + (match spec.maxLifetime case Some(d) => d case None => 86_400_000_000_000) < now)
    || (status.lastUsedAt.Some? &&
        status.lastUsedAt.value + (match spec.idleTTL case Some(d) => d case None => 1_800_000_000_000) < now)
  }

  /** One reconcile removes the instance exactly when it is past its limits and the calls for that succeed. */
  lemma RemovesExactly(c: Cluster, api: Api)
    requires c.instance.Some?
    ensures Reconciled(c, api).0.instance.None? <==>
            api.get && api.remove && PastLimits(c.instance.value.spec, c.instance.value.status, c.clock)
  {
  }

  /** Without faults an unexpired instance with its secret gets its Pod and Service, and its secret is owned. */
  lemma Converges(c: Cluster, api: Api)
    requires api.Faultless() && c.instance.Some? && !ShouldCollect(c.instance.value, c.clock) && SecretPresent(c, c.instance.value)
    ensures var spec := c.instance.value.spec;
            var after := Reconciled(c, api).0;
            && after.pod.Some? && after.service.Some? && after.instance.Some?
            && (c.pod.None? ==> after.pod.value.labels == LabelsOf(spec) && after.pod.value.port == spec.Port())
            && (c.service.None? ==> after.service.value.selector == LabelsOf(spec) && after.service.value.port == spec.Port())
            && (spec.secretRef != "" ==> after.secrets == c.secrets[spec.secretRef := true])
            && (after.instance.value.status.phase == Ready <==> PodReady(after.pod.value))
  {
  }

  lemma ChangesIfCollected(c: Cluster, api: Api)
    requires api.Faultless()
    ensures var after := Reconciled(c, api).0;
            Reconciled(after, api).0 == after <==> !(after.instance.Some? && ShouldCollect(after.instance.value, c.clock))
  {
    var after := Reconciled(c, api).0;
    if c.instance.Some? && !ShouldCollect(c.instance.value, c.clock) && SecretPresent(c, c.instance.value) {
      var i := c.instance.value;
      DrivenAgain(Adopted(c, i, api), i, api);
      assert Adopted(after, after.instance.value, api) == after;
    }
  }

  lemma DrivenAgain(c: Cluster, i: Instance, api: Api)
    requires api.Faultless()
    ensures var after := Driven(c, i, api).0;
            after.instance.Some? && after.instance.value.spec == i.spec && after.secrets == c.secrets && after.clock == c.clock &&
            Driven(after, after.instance.value, api).0 == after
  {
    var after := Driven(c, i, api).0;
    assert Host(after, api) == Host(Driven(after, after.instance.value, api).0, api);
  }

  /**
   A fault-free reconcile of an unexpired instance whose Pod exists reports what the Pod shows:
   ready only when it runs and its readiness condition is true, failed when it failed, pending
   in every other phase; it comes again after 30 s.
   */
  lemma ReportsPod(c: Cluster, api: Api)
    requires api.Faultless() && c.instance.Some? && c.pod.Some? && SecretPresent(c, c.instance.value)
    requires !PastLimits(c.instance.value.spec, c.instance.value.status, c.clock)
    ensures var before, pod := c.instance.value.status, c.pod.value;
            var (after, out) := Reconciled(c, api);
            && out == Requeue(30_000_000_000) && after.instance.Some?
            && var status := after.instance.value.status;
            && status.podName == c.name
            && (status.phase == Ready <==> pod.phase == "Running" && Condition("Ready", "True") in pod.conditions)
            && (status.phase == Running <==> pod.phase == "Running" && Condition("Ready", "True") !in pod.conditions)
            && (status.phase == Failed <==> pod.phase == "Failed")
            && (status.phase == Pending <==> pod.phase != "Running" && pod.phase != "Failed")
            && status.message == (if status.phase == Ready then PodIsReady else if status.phase == Running then WaitingForReadiness
                                  else if status.phase == Failed then PodHasFailed else PodPhaseIs(pod.phase))
            && (status.phase != Ready ==>
                  status.startedAt == before.startedAt && status.lastUsedAt == before.lastUsedAt && status.serviceURL == before.serviceURL)
  {
  }

  /** The first time a Pod is ready, to the second, becomes the start and the last use; a time already stored stays. */
  lemma ReportsTimes(c: Cluster, api: Api)
    requires api.Faultless() && c.instance.Some? && c.pod.Some? && SecretPresent(c, c.instance.value)
    requires !PastLimits(c.instance.value.spec, c.instance.value.status, c.clock)
    requires c.pod.value.phase == "Running" && Condition("Ready", "True") in c.pod.value.conditions
    ensures var before, after := c.instance.value.status, Reconciled(c, api).0;
            && after.instance.Some?
            && var status := after.instance.value.status;
            && status.startedAt.Some? && status.lastUsedAt.Some?
            && (before.startedAt.Some? ==> status.startedAt == before.startedAt)
            && (before.lastUsedAt.Some? ==> status.lastUsedAt == before.lastUsedAt)
            && (before.startedAt.None? ==>
                  status.startedAt.value % 1_000_000_000 == 0 && status.startedAt.value <= c.clock < status.startedAt.value + 1_000_000_000)
            && (before.lastUsedAt.None? ==>
                  status.lastUsedAt.value % 1_000_000_000 == 0 && status.lastUsedAt.value <= c.clock < status.lastUsedAt.value + 1_000_000_000)
  {
  }

  /** The URL of a ready instance: the Service's address if it has one, else its name in the cluster, and the port. */
  lemma ReportsUrl(c: Cluster, api: Api)
    requires api.Faultless() && c.instance.Some? && c.pod.Some? && c.service.Some? && SecretPresent(c, c.instance.value)
    requires !PastLimits(c.instance.value.spec, c.instance.value.status, c.clock)
    requires c.pod.value.phase == "Running" && Condition("Ready", "True") in c.pod.value.conditions
    ensures var after := Reconciled(c, api).0; var spec := c.instance.value.spec;
            && after.instance.Some?
            && after.instance.value.status.serviceURL ==
               "http://" + (if c.service.value.clusterIP != "" then c.service.value.clusterIP else c.name + "." + c.space + ".svc.cluster.local")
               + ":" + Text.SignedDecimal(if spec.port == 0 then 8080 else spec.port)
  {
  }

  /** A missing Pod and Service are made with the three labels and the port, 8080 when the spec gives none. */
  lemma MakesObjects(c: Cluster, api: Api)
    requires api.Faultless() && c.instance.Some? && c.pod.None? && c.service.None? && SecretPresent(c, c.instance.value)
    requires !PastLimits(c.instance.value.spec, c.instance.value.status, c.clock)
    ensures var after := Reconciled(c, api).0; var spec := c.instance.value.spec;
            && after.pod.Some? && after.service.Some?
            && after.pod.value.port == after.service.value.port == (if spec.port == 0 then 8080 else spec.port)
            && after.pod.value.labels == after.service.value.selector
            && after.pod.value.labels ==
               map["reflow.io/managed-by" := "reflow-operator", "reflow.io/target" := spec.targetName,
                   "reflow.io/subject-key" := LabelValue(spec.subjectKey)]
  {
  }

  /** A missing secret, or a call that fails for the Pod or the Service, is reported as a failure and tried again after a minute. */
  lemma ReportsFailure(c: Cluster, api: Api)
    requires api.get && api.statusUpdate && c.instance.Some? && (c.instance.value.spec.secretRef != "" ==> api.secretGet)
    requires !PastLimits(c.instance.value.spec, c.instance.value.status, c.clock)
    ensures var (after, out) := Reconciled(c, api);
            && after.instance.Some?
            && (out == Requeue(60_000_000_000) <==>
                || !SecretPresent(c, c.instance.value)
                || !api.podGet || (c.pod.None? && !(api.podOwner && api.podCreate))
                || !api.serviceGet || (c.service.None? && !(api.serviceOwner && api.serviceCreate)))
            && (out == Requeue(60_000_000_000) ==>
                  var status := after.instance.value.status;
                  && status.phase == Failed
                  && (status.message == SecretNotFound(c.instance.value.spec.secretRef) <==> !SecretPresent(c, c.instance.value))
                  && (status.message == ServiceNotEnsured <==> SecretPresent(c, c.instance.value) && after.pod.Some? && api.podGet)
                  && status == c.instance.value.status.(phase := Failed, message := status.message))
  {
  }

  /** A reconcile that cannot read the instance, remove it, read its secret or write its status changes no status and is retried. */
  lemma RetriesExactly(c: Cluster, api: Api)
    ensures var (after, out) := Reconciled(c, api);
            && (out == Retry ==> after.instance == c.instance)
            && (out == Retry <==>
                || !api.get
                || (c.instance.Some? &&
                    if PastLimits(c.instance.value.spec, c.instance.value.status, c.clock) then !api.remove
                    else !api.statusUpdate || (c.instance.value.spec.secretRef != "" && !api.secretGet)))
            && (out == Done <==> api.get && after.instance.None?)
  {
  }

  /** How a reconcile at a given time may change an instance: it stores a time that was missing, and no other. */
  predicate Carried(i: Instance, j: Instance, now: Time) {
    && j.spec == i.spec
    && (j.status.startedAt == i.status.startedAt || (i.status.startedAt.None? && j.status.startedAt == Some(Stored(now))))
    && (j.status.lastUsedAt == i.status.lastUsedAt || (i.status.lastUsedAt.None? && j.status.lastUsedAt == Some(Stored(now))))
  }

  lemma DrivenCarries(c: Cluster, i: Instance, api: Api)
    requires api.Faultless()
    ensures var r := Driven(c, i, api);
            r.0.instance.Some? && Carried(i, r.0.instance.value, c.clock) && r.0.clock == c.clock && r.1 == Requeue(30 * SECOND)
  {
  }

  lemma ReconcileCarries(c: Cluster, api: Api)
    requires api.Faultless() && c.instance.Some? && !ShouldCollect(c.instance.value, c.clock)
    ensures var i := c.instance.value;
            var r := Reconciled(c, api);
            && r.0.instance.Some? && r.0.clock == c.clock && Carried(i, r.0.instance.value, c.clock)
            && (r.1 == Requeue(30 * SECOND) || (r.1 == Requeue(MINUTE) && r.0.instance.value.status.startedAt == i.status.startedAt))
  {
    DrivenCarries(Adopted(c, c.instance.value, api), c.instance.value, api);
  }

  /**
   The first sight of a ready Pod stores the current time, rounded down to a second, as the
   start or the last use of an instance whose corresponding limit is shorter than what is cut off.
   */
  predicate StartsExpired(c: Cluster, i: Instance) {
    && c.pod.Some? && PodReady(c.pod.value)
    && ((i.status.startedAt.None? && c.clock - Stored(c.clock) > i.spec.Lifetime())
        || (i.status.lastUsedAt.None? && c.clock - Stored(c.clock) > i.spec.Idle()))
  }

  lemma DrivenStartsExpired(c: Cluster, i: Instance, api: Api)
    requires api.Faultless() && !ShouldCollect(i, c.clock)
    ensures var after := Driven(c, i, api).0;
            after.instance.Some? && (ShouldCollect(after.instance.value, c.clock) <==> StartsExpired(c, i))
  {
    var pod := EnsuredPod(i.spec, c.pod, api).value;
    var j := Driven(c, i, api).0.instance.value;
    if PodReady(pod) {
      assert j.status.startedAt == FirstTime(i.status.startedAt, c.clock);
      assert j.status.lastUsedAt == FirstTime(i.status.lastUsedAt, c.clock);
    } else {
      assert j.status.startedAt == i.status.startedAt && j.status.lastUsedAt == i.status.lastUsedAt;
    }
  }

  /**
   Repeating a fault-free reconcile at once changes nothing more, unless the first one was
   about to store such a time: then the second removes the instance.
   */
  lemma RepeatedReconcile(c: Cluster, api: Api)
    requires api.Faultless()
    ensures var after := Reconciled(c, api).0;
            Reconciled(after, api).0 == after <==>
            !(c.instance.Some? && !ShouldCollect(c.instance.value, c.clock) && SecretPresent(c, c.instance.value)
              && StartsExpired(c, c.instance.value))
  {
    ChangesIfCollected(c, api);
    if c.instance.Some? && !ShouldCollect(c.instance.value, c.clock) && SecretPresent(c, c.instance.value) {
      var i := c.instance.value;
      DrivenStartsExpired(Adopted(c, i, api), i, api);
    }
  }

  /** Limits of at least a second leave no such case. */
  lemma FixpointOnceReconciled(c: Cluster, api: Api)
    requires api.Faultless()
    requires c.instance.Some? ==> c.instance.value.spec.Lifetime() >= SECOND && c.instance.value.spec.Idle() >= SECOND
    ensures Reconciled(Reconciled(c, api).0, api).0 == Reconciled(c, api).0
  {
    RepeatedReconcile(c, api);
  }

  /** With a lifetime of 500 ms, a Pod found ready 600 ms into a second is reported and then removed. */
  lemma ReadyThenRemoved(api: Api)
    requires api.Faultless()
    ensures var i := Instance(Spec("t", "user:0", 0, "", Some(SECOND / 2), None), EMPTY_STATUS);
            var pod := Pod(LabelsOf(i.spec), 8080, "Running", [Condition("Ready", "True")]);
            var c := Cluster("t-user-0", "mcp", 7 * SECOND + 3 * SECOND / 5, Some(i), Some(pod), None, map[]);
            var after := Reconciled(c, api).0;
            && after.instance.Some? && after.instance.value.status.phase == Ready
            && Reconciled(after, api).0.instance.None?
  {
    var i := Instance(Spec("t", "user:0", 0, "", Some(SECOND / 2), None), EMPTY_STATUS);
    var pod := Pod(LabelsOf(i.spec), 8080, "Running", [Condition("Ready", "True")]);
    var c := Cluster("t-user-0", "mcp", 7 * SECOND + 3 * SECOND / 5, Some(i), Some(pod), None, map[]);
    assert PodReady(pod) && Stored(c.clock) == 7 * SECOND;
    DrivenStartsExpired(c, i, api);
  }

  // ---------- Which labels the API accepts ----------

  predicate LetterOrDigit(c: char) {
    'a' <= c <= 'z' || 'A' <= c <= 'Z' || '0' <= c <= '9'
  }

  /** What the API accepts as the value of a label. */
  predicate LegalLabel(s: string) {
    && |s| <= 63
    && (s != "" ==> LetterOrDigit(s[0]) && LetterOrDigit(s[|s| - 1]))
    && forall i :: 0 <= i < |s| ==> LabelChar(s[i])
  }

  predicate LabelChar(c: char) {
    LetterOrDigit(c) || c in "-_."
  }

  /** Cleaning changes a key exactly when it is too long or holds a character that labels do not allow. */
  lemma CleaningChanges(key: string)
    ensures LabelValue(key) == key <==> |key| <= 63 && forall i :: 0 <= i < |key| ==> LabelChar(key[i])
    ensures forall i :: 0 <= i < |key| && i < 63 ==> LabelValue(key)[i] == if LabelChar(key[i]) then key[i] else '-'
    ensures |LabelValue(key)| == if |key| < 63 then |key| else 63
  {
    forall c ensures CleanChar(c) == (if LabelChar(c) then c else '-') {
    }
    if LabelValue(key) == key {
      forall i | 0 <= i < |key| ensures LabelChar(key[i]) {
        assert Clean(key)[i] == key[i];
      }
    }
  }

  /** The ends of a key, where the cut leaves them, are letters or digits. */
  predicate EndsLegally(key: string) {
    key != "" ==> LetterOrDigit(key[0]) && LetterOrDigit(key[(if |key| > 63 then 63 else |key|) - 1])
  }

  /** A cleaned key is a legal label value exactly when its first character and the last that is kept are letters or digits. */
  lemma LabelValueLegal(key: string)
    ensures LegalLabel(LabelValue(key)) <==> EndsLegally(key)
  {
    var v := LabelValue(key);
    if key != "" {
      assert v[0] == CleanChar(key[0]) && v[|v| - 1] == CleanChar(key[|v| - 1]);
    }
  }

  /**
   All labels of a Pod are legal exactly when the target's name, which is not cleaned, is a
   legal value as it stands, and the key ends legally.
   */
  lemma LabelsLegalExactly(spec: Spec)
    ensures (forall k :: k in LabelsOf(spec) ==> LegalLabel(LabelsOf(spec)[k])) <==> LegalLabel(spec.targetName) && EndsLegally(spec.subjectKey)
  {
    var l := LabelsOf(spec);
    LabelValueLegal(spec.subjectKey);
    assert "reflow.io/target" in l && l["reflow.io/target"] == spec.targetName;
    assert "reflow.io/subject-key" in l && l["reflow.io/subject-key"] == LabelValue(spec.subjectKey);
    assert LegalLabel("reflow-operator");
  }

  /** A target's name with a space in it makes the API refuse the Pod. */
  lemma SpaceIsIllegal(spec: Spec)
    requires spec.targetName == "my tool"
    ensures exists k :: k in LabelsOf(spec) && !LegalLabel(LabelsOf(spec)[k])
  {
    assert spec.targetName[2] == ' ';
    LabelsLegalExactly(spec);
  }

  // ---------- Who a Service reaches ----------

  lemma LabelsMatch(a: Spec, b: Spec)
    ensures Selects(LabelsOf(a), LabelsOf(b)) <==> a.targetName == b.targetName && LabelValue(a.subjectKey) == LabelValue(b.subjectKey)
  {
    var l := LabelsOf(a);
    assert "reflow.io/target" in l && "reflow.io/subject-key" in l;
  }

  predicate SameLabel(x: string, y: string) {
    && (|x| == |y| || (|x| >= MAX_LABEL && |y| >= MAX_LABEL))
    && forall i :: 0 <= i < |x| && i < |y| && i < MAX_LABEL ==> CleanChar(x[i]) == CleanChar(y[i])
  }

  /**
   The Service of one instance reaches the Pod of another exactly when they share the target and
   their subject keys agree, character by character after cleaning, up to the length of a label.
   */
  lemma ServiceReaches(a: Spec, b: Spec)
    ensures Selects(LabelsOf(a), LabelsOf(b)) <==> a.targetName == b.targetName && SameLabel(a.subjectKey, b.subjectKey)
  {
    LabelsMatch(a, b);
    var x, y := a.subjectKey, b.subjectKey;
    var p, q := LabelValue(x), LabelValue(y);
    if p == q {
      forall i | 0 <= i < |x| && i < |y| && i < MAX_LABEL ensures CleanChar(x[i]) == CleanChar(y[i]) {
        assert p[i] == q[i];
      }
    }
    if SameLabel(x, y) {
      assert |p| == |q|;
      assert forall i :: 0 <= i < |p| ==> p[i] == q[i];
    }
  }

  /** A kind, a colon and a body, all else being fit for a label: the form in which the gateway computes keys. */
  ghost predicate KeyShaped(x: string) {
    |x| <= MAX_LABEL && exists colon :: 0 <= colon < |x| && SplitsAt(x, colon)
  }

  predicate SplitsAt(x: string, colon: nat)
    requires colon < |x|
  {
    && x[colon] == ':'
    && (forall j :: 0 <= j < |x| && j != colon ==> CleanChar(x[j]) == x[j])
    && forall j :: 0 <= j < colon ==> x[j] != '-'
  }

  /** Such keys stay apart as labels, so of two instances of a target neither Service reaches the other's Pod. */
  lemma ComputedKeysSeparate(a: Spec, b: Spec)
    requires KeyShaped(a.subjectKey) && KeyShaped(b.subjectKey) && a.targetName == b.targetName
    ensures Selects(LabelsOf(a), LabelsOf(b)) <==> a.subjectKey == b.subjectKey
  {
    ServiceReaches(a, b);
    var x, y := a.subjectKey, b.subjectKey;
    var i :| 0 <= i < |x| && SplitsAt(x, i);
    var j :| 0 <= j < |y| && SplitsAt(y, j);
    if SameLabel(x, y) {
      assert CleanChar(x[i]) == '-' && CleanChar(y[j]) == '-';
      assert i == j;
      assert forall k :: 0 <= k < |x| ==> x[k] == y[k];
    }
  }

  /**
   An instance created under a name whose former Pod or Service is still there adopts them, so
   its Service reaches its Pod exactly when the leftovers match, in labels and in port.
   */
  lemma LeftoversAdopted(c: Cluster, api: Api)
    requires api.Faultless() && c.instance.Some? && !ShouldCollect(c.instance.value, c.clock) && SecretPresent(c, c.instance.value)
    ensures var own, port := LabelsOf(c.instance.value.spec), c.instance.value.spec.Port();
            var after := Reconciled(c, api).0;
            && after.pod.Some? && after.service.Some?
            && (after.service.value.port == after.pod.value.port <==>
                (if c.service.Some? then c.service.value.port else port) == if c.pod.Some? then c.pod.value.port else port)
            && (Selects(after.service.value.selector, after.pod.value.labels) <==>
                Selects(if c.service.Some? then c.service.value.selector else own, if c.pod.Some? then c.pod.value.labels else own))
  {
    Converges(c, api);
  }

  // ---------- Runs ----------

  /**
   The cluster together with the time by which the next reconcile is due, and the time at which
   the instance's spec was last edited.
   */
  datatype World = World(c: Cluster, due: Option<Time>, edited: Option<Time>)

  datatype Event =
    | Tick(to: Time)
    | Create(spec: Spec)
    | Edit(spec: Spec)
    | Remove
    | Cascade
    | PodChanges(phase: string, conditions: seq<Condition>)
    | PodLost
    | ServiceLost
    | SecretsChange(secrets: map<string, bool>)
    | Touch
    | Reconciles(api: Api, backoff: Time)

  /** Time moves forward and not past a due reconcile; a name is used again only once it is clear. */
  predicate Enabled(w: World, e: Event) {
    match e
    case Tick(to) => w.c.clock <= to && (w.due.Some? ==> to <= w.due.value)
    case Create(_) => w.c.instance.None? && w.c.pod.None? && w.c.service.None?
    case Edit(_) => w.c.instance.Some?
    case Cascade => w.c.instance.None?
    case _ => true
  }

  function DueAfter(out: Outcome, now: Time, backoff: Time): Option<Time> {
    match out
    case Done => None
    case Requeue(after) => Some(now + after)
    case Retry => Some(now + backoff)
  }

  function Touched(c: Cluster): Cluster {
    if c.instance.None? then c
    else
      var i := c.instance.value;
      c.(instance := Some(i.(status := i.status.(lastUsedAt := Some(Stored(c.clock))))))
  }

  function Apply(w: World, e: Event): World
    requires Enabled(w, e)
  {
    match e
    case Tick(to) => w.(c := w.c.(clock := to))
    case Create(spec) => World(w.c.(instance := Some(Instance(spec, EMPTY_STATUS))), Some(w.c.clock + 30 * SECOND), None)
    case Edit(spec) => w.(c := w.c.(instance := Some(w.c.instance.value.(spec := spec))), edited := Some(w.c.clock))
    case Remove => w.(c := w.c.(instance := None), due := None)
    case Cascade => w.(c := w.c.(pod := None, service := None))
    case PodChanges(phase, conditions) =>
      if w.c.pod.None? then w else w.(c := w.c.(pod := Some(w.c.pod.value.(phase := phase, conditions := conditions))))
    case PodLost => w.(c := w.c.(pod := None))
    case ServiceLost => w.(c := w.c.(service := None))
    case SecretsChange(secrets) => w.(c := w.c.(secrets := secrets))
    case Touch => w.(c := Touched(w.c))
    case Reconciles(api, backoff) =>
      var r := Reconciled(w.c, api);
      w.(c := r.0, due := DueAfter(r.1, w.c.clock, backoff))
  }

  predicate Runs(w: World, events: seq<Event>)
    decreases |events|
  {
    events == [] || (Enabled(w, events[0]) && Runs(Apply(w, events[0]), events[1..]))
  }

  function After(w: World, events: seq<Event>): World
    requires Runs(w, events)
    decreases |events|
  {
    if events == [] then w else After(Apply(w, events[0]), events[1..])
  }

  function Start(name: string, space: string, clock: Time): World {
    World(Cluster(name, space, clock, None, None, None, map[]), None, None)
  }

  /** What routes requests to the Pod. */
  predicate SameRouting(a: Spec, b: Spec) {
    a.targetName == b.targetName && SameLabel(a.subjectKey, b.subjectKey) && a.Port() == b.Port()
  }

  lemma RoutingIsLabelsAndPort(a: Spec, b: Spec)
    ensures SameRouting(a, b) <==> LabelsOf(a) == LabelsOf(b) && a.Port() == b.Port()
    ensures SameRouting(a, b) <==> Selects(LabelsOf(a), LabelsOf(b)) && a.Port() == b.Port()
  {
    ServiceReaches(a, b);
    LabelsMatch(a, b);
    if LabelsOf(a) == LabelsOf(b) {
      assert Selects(LabelsOf(a), LabelsOf(b));
    }
  }

  /** Every edit in the run leads from one spec to another that `ok` relates. */
  predicate EditsKept(w: World, events: seq<Event>, ok: (Spec, Spec) -> bool)
    requires Runs(w, events)
    decreases |events|
  {
    events == [] ||
    (&& (events[0].Edit? ==> ok(w.c.instance.value.spec, events[0].spec))
     && EditsKept(Apply(w, events[0]), events[1..], ok))
  }

  /** A ready instance has a start time, a time of last use and a URL. */
  predicate ReadyIsReported(c: Cluster) {
    c.instance.Some? && c.instance.value.status.phase == Ready ==>
      var status := c.instance.value.status; status.startedAt.Some? && status.lastUsedAt.Some? && status.serviceURL != ""
  }

  /** A ready instance has a URL with its port. */
  ghost predicate ReadyIsReachable(i: Instance) {
    i.status.phase == Ready ==>
      exists host: string :: host != "" && i.status.serviceURL == Url(host, i.spec.Port())
  }

  predicate Matches(c: Cluster, i: Instance) {
    && (c.pod.Some? ==> c.pod.value.labels == LabelsOf(i.spec) && c.pod.value.port == i.spec.Port())
    && (c.service.Some? ==> c.service.value.selector == LabelsOf(i.spec) && c.service.value.port == i.spec.Port())
  }

  ghost predicate Inv(c: Cluster) {
    c.instance.Some? ==> Matches(c, c.instance.value) && ReadyIsReachable(c.instance.value)
  }

  lemma DrivenKeepsInv(c: Cluster, i: Instance, api: Api)
    requires Inv(c) && c.instance == Some(i)
    ensures Inv(Driven(c, i, api).0)
  {
    var after := Driven(c, i, api).0;
    var j := after.instance.value;
    if j.status.phase == Ready && j != i {
      assert j.status.serviceURL == Url(Host(after, api), i.spec.Port());
    }
  }

  lemma EditKeepsInv(w: World, spec: Spec)
    requires Inv(w.c) && w.c.instance.Some? && SameRouting(w.c.instance.value.spec, spec)
    ensures Inv(Apply(w, Edit(spec)).c)
  {
    RoutingIsLabelsAndPort(w.c.instance.value.spec, spec);
  }

  lemma StepKeepsInv(w: World, e: Event)
    requires Inv(w.c) && Enabled(w, e)
    requires e.Edit? ==> SameRouting(w.c.instance.value.spec, e.spec)
    ensures Inv(Apply(w, e).c)
  {
    if e.Reconciles? {
      ReconcileKeepsInv(w.c, e.api);
    } else if e.Edit? {
      EditKeepsInv(w, e.spec);
    }
  }

  lemma ReconcileKeepsInv(c: Cluster, api: Api)
    requires Inv(c)
    ensures Inv(Reconciled(c, api).0)
  {
    if c.instance.Some? {
      var i := c.instance.value;
      DrivenKeepsInv(Adopted(c, i, api), i, api);
    }
  }

  lemma {:induction false} RunKeepsInv(w: World, events: seq<Event>, ok: (Spec, Spec) -> bool)
    requires Inv(w.c) && Runs(w, events) && EditsKept(w, events, ok)
    requires forall a, b :: ok(a, b) ==> SameRouting(a, b)
    ensures Inv(After(w, events).c)
    decreases |events|
  {
    if events != [] {
      StepKeepsInv(w, events[0]);
      RunKeepsInv(Apply(w, events[0]), events[1..], ok);
    }
  }

  lemma StepKeepsReported(w: World, e: Event)
    requires ReadyIsReported(w.c) && Enabled(w, e)
    ensures ReadyIsReported(Apply(w, e).c)
  {
    if e.Reconciles? && w.c.instance.Some? {
      DrivenReports(Adopted(w.c, w.c.instance.value, e.api), w.c.instance.value, e.api);
    }
  }

  lemma DrivenReports(c: Cluster, i: Instance, api: Api)
    requires ReadyIsReported(c) && c.instance == Some(i)
    ensures ReadyIsReported(Driven(c, i, api).0)
  {
  }

  /** In every run, with any faults and any edits of the spec, a ready instance has a service URL and a start time. */
  lemma {:induction false} Safety(w: World, events: seq<Event>)
    requires ReadyIsReported(w.c) && Runs(w, events)
    ensures ReadyIsReported(After(w, events).c)
    decreases |events|
  {
    if events != [] {
      StepKeepsReported(w, events[0]);
      Safety(Apply(w, events[0]), events[1..]);
    }
  }

  /** The Service selects the Pod, on its port. */
  predicate Aligned(c: Cluster) {
    c.instance.Some? && c.pod.Some? && c.service.Some? ==>
      Selects(c.service.value.selector, c.pod.value.labels) && c.service.value.port == c.pod.value.port
  }

  const ALL_WELL := Api(true, true, true, true, true, true, true, true, true, true, true, true, "")

  lemma RunCons(w: World, e: Event, rest: seq<Event>, ok: (Spec, Spec) -> bool)
    requires Enabled(w, e) && Runs(Apply(w, e), rest) && EditsKept(Apply(w, e), rest, ok)
    requires e.Edit? ==> ok(w.c.instance.value.spec, e.spec)
    ensures Runs(w, [e] + rest) && EditsKept(w, [e] + rest, ok) && After(w, [e] + rest) == After(Apply(w, e), rest)
  {
    assert ([e] + rest)[1..] == rest;
  }

  /** The first reconcile of an instance, which has its secret and no Pod. */
  lemma FirstReconcile(c: Cluster, api: Api)
    requires api.Faultless() && c.instance.Some? && c.pod.None? && SecretPresent(c, c.instance.value)
    requires c.instance.value.status.startedAt.None? && c.instance.value.status.lastUsedAt.None?
    ensures var after := Reconciled(c, api).0; var spec := c.instance.value.spec;
            && after.instance.Some? && after.instance.value.spec == spec
            && after.instance.value.status.startedAt.None? && after.instance.value.status.lastUsedAt.None?
            && after.pod == Some(Pod(LabelsOf(spec), spec.Port(), "Pending", []))
            && after.service == if c.service.Some? then c.service else Some(Service(LabelsOf(spec), spec.Port(), api.ip))
  {
  }

  /** From the edited instance on: its Pod is lost and made again, its Service stays. */
  lemma EditedThenLost(w: World, b: Spec, ok: (Spec, Spec) -> bool) returns (events: seq<Event>)
    requires w.c.instance.Some? && w.c.service.Some? && ok(w.c.instance.value.spec, b)
    requires w.c.instance.value.status.startedAt.None? && w.c.instance.value.status.lastUsedAt.None?
    ensures Runs(w, events) && EditsKept(w, events, ok)
    ensures var c := After(w, events).c;
            c.instance.Some? && c.service == w.c.service && c.pod == Some(Pod(LabelsOf(b), b.Port(), "Pending", []))
  {
    var lost := PodLost;
    var secrets := SecretsChange(map[b.secretRef := false]);
    var again := Reconciles(ALL_WELL, 0);
    var w1 := Apply(w, Edit(b));
    var w2 := Apply(w1, lost);
    var w3 := Apply(w2, secrets);
    FirstReconcile(w3.c, ALL_WELL);
    RunCons(w3, again, [], ok);
    RunCons(w2, secrets, [again] + [], ok);
    RunCons(w1, lost, [secrets] + ([again] + []), ok);
    RunCons(w, Edit(b), [lost] + ([secrets] + ([again] + [])), ok);
    events := [Edit(b)] + ([lost] + ([secrets] + ([again] + [])));
  }

  lemma MisalignedRun(w: World, a: Spec, b: Spec, ok: (Spec, Spec) -> bool) returns (events: seq<Event>)
    requires w.c.instance.None? && w.c.pod.None? && w.c.service.None?
    requires ok(a, b) && !SameRouting(a, b)
    ensures Runs(w, events) && EditsKept(w, events, ok) && !Aligned(After(w, events).c)
  {
    var create, secrets, first := Create(a), SecretsChange(map[a.secretRef := false]), Reconciles(ALL_WELL, 0);
    var w1 := Apply(w, create);
    var w2 := Apply(w1, secrets);
    var w3 := Apply(w2, first);
    FirstReconcile(w2.c, ALL_WELL);
    var rest := EditedThenLost(w3, b, ok);
    RunCons(w2, first, rest, ok);
    RunCons(w1, secrets, [first] + rest, ok);
    RunCons(w, create, [secrets] + ([first] + rest), ok);
    RoutingIsLabelsAndPort(a, b);
    events := [create] + ([secrets] + ([first] + rest));
  }

  /**
   The Service selects the Pod on its port in every run, with any faults, exactly when the edits
   that may happen to a spec keep its target, its label and its port.
   */
  lemma EditsSafeExactly(name: string, space: string, clock: Time, ok: (Spec, Spec) -> bool)
    ensures (forall events :: Runs(Start(name, space, clock), events) && EditsKept(Start(name, space, clock), events, ok) ==>
               Aligned(After(Start(name, space, clock), events).c))
            <==> forall a, b :: ok(a, b) ==> SameRouting(a, b)
  {
    var start := Start(name, space, clock);
    if forall a, b :: ok(a, b) ==> SameRouting(a, b) {
      forall events | Runs(start, events) && EditsKept(start, events, ok) ensures Aligned(After(start, events).c) {
        RunKeepsInv(start, events, ok);
      }
    } else {
      var a, b :| ok(a, b) && !SameRouting(a, b);
      var events := MisalignedRun(start, a, b, ok);
    }
  }

  /** The instance is never removed in the run. */
  predicate Exists(w: World, events: seq<Event>)
    requires Runs(w, events)
    decreases |events|
  {
    w.c.instance.Some? && (events == [] || Exists(Apply(w, events[0]), events[1..]))
  }

  /** While the instance exists, its start time stays as it was first stored. */
  lemma {:induction false} StartedAtIsFinal(w: World, events: seq<Event>, t: Time)
    requires Runs(w, events) && w.c.instance.Some? && w.c.instance.value.status.startedAt == Some(t)
    requires Exists(w, events)
    ensures After(w, events).c.instance.Some? && After(w, events).c.instance.value.status.startedAt == Some(t)
    decreases |events|
  {
    if events != [] {
      StartedAtIsFinal(Apply(w, events[0]), events[1..], t);
    }
  }

  predicate LosesObject(e: Event) {
    e == PodLost || e == ServiceLost || e == Cascade
  }

  /** Unless the cluster loses them, a Pod keeps its labels and port in every run, and a Service everything. */
  lemma {:induction false} ObjectsKept(w: World, events: seq<Event>)
    requires Runs(w, events) && forall k :: 0 <= k < |events| ==> !LosesObject(events[k])
    ensures var c, c' := w.c, After(w, events).c;
            && (c.pod.Some? ==> c'.pod.Some? && c'.pod.value.labels == c.pod.value.labels && c'.pod.value.port == c.pod.value.port)
            && (c.service.Some? ==> c'.service == c.service)
    decreases |events|
  {
    if events != [] {
      var e, rest := events[0], events[1..];
      assert !LosesObject(e);
      if e.Reconciles? {
        NeverReplaces(w.c, e.api);
      }
      assert forall k :: 0 <= k < |rest| ==> rest[k] == events[k + 1];
      ObjectsKept(Apply(w, e), rest);
    }
  }

  /** At some time in the run the instance is past its limits, as its spec and status then have them. */
  predicate Expires(w: World, events: seq<Event>)
    requires Runs(w, events)
    decreases |events|
  {
    events != [] &&
    ((w.c.instance.Some? && PastLimits(w.c.instance.value.spec, w.c.instance.value.status, w.c.clock))
     || Expires(Apply(w, events[0]), events[1..]))
  }

  /** In every run an instance that is not removed from outside disappears only after it was past its limits. */
  lemma {:induction false} RemovalHasReason(w: World, events: seq<Event>)
    requires Runs(w, events) && forall k :: 0 <= k < |events| ==> events[k] != Remove
    requires w.c.instance.Some? && After(w, events).c.instance.None?
    ensures Expires(w, events)
    decreases |events|
  {
    if events != [] {
      var e, rest := events[0], events[1..];
      if Apply(w, e).c.instance.None? {
        if e.Reconciles? {
          RemovesExactly(w.c, e.api);
        }
      } else {
        assert forall k :: 0 <= k < |rest| ==> rest[k] == events[k + 1];
        RemovalHasReason(Apply(w, e), rest);
      }
    }
  }

  // ---------- The deadline ----------

  predicate NoFaults(events: seq<Event>) {
    forall k :: 0 <= k < |events| && events[k].Reconciles? ==> events[k].api.Faultless()
  }

  function Max(a: Time, b: Time): Time {
    if a < b then b else a
  }

  /** When a limit counted from a time has passed, or the spec that sets the limit was edited, whichever is later. */
  function Passed(from: Time, limit: Time, edited: Option<Time>): Time {
    if edited.Some? then Max(edited.value, from + limit) else from + limit
  }

  /** The next reconcile of an instance is due within a minute of the first time at which it is expired. */
  predicate DueInTime(i: Instance, now: Time, due: Time, edited: Option<Time>) {
    && now <= due <= now + MINUTE
    && (i.status.startedAt.Some? ==>
          i.status.startedAt.value <= now && due <= Passed(i.status.startedAt.value, Max(i.spec.Lifetime(), 0), edited) + MINUTE)
    && (i.status.lastUsedAt.Some? ==>
          i.status.lastUsedAt.value <= now && due <= Passed(i.status.lastUsedAt.value, Max(i.spec.Idle(), SECOND), edited) + MINUTE)
  }

  predicate OnTime(w: World) {
    w.c.instance.Some? ==> w.due.Some? && DueInTime(w.c.instance.value, w.c.clock, w.due.value, w.edited)
  }

  lemma CarriedInTime(i: Instance, j: Instance, now: Time, due: Time, edited: Option<Time>, after: Time)
    requires DueInTime(i, now, due, edited) && Carried(i, j, now) && !ShouldCollect(i, now)
    requires after == 30 * SECOND || (after == MINUTE && j.status.startedAt == i.status.startedAt)
    ensures DueInTime(j, now, now + after, edited)
  {
  }

  lemma ReconcileKeepsTime(w: World, api: Api, backoff: Time)
    requires OnTime(w) && api.Faultless()
    ensures OnTime(Apply(w, Reconciles(api, backoff)))
  {
    if w.c.instance.Some? && !ShouldCollect(w.c.instance.value, w.c.clock) {
      ReconcileCarries(w.c, api);
      var r := Reconciled(w.c, api);
      CarriedInTime(w.c.instance.value, r.0.instance.value, w.c.clock, w.due.value, w.edited, r.1.after);
    }
  }

  lemma StepKeepsTime(w: World, e: Event)
    requires OnTime(w) && Enabled(w, e) && (e.Reconciles? ==> e.api.Faultless())
    ensures OnTime(Apply(w, e))
  {
    if e.Reconciles? {
      ReconcileKeepsTime(w, e.api, e.backoff);
    }
  }

  lemma {:induction false} RunKeepsTime(w: World, events: seq<Event>)
    requires OnTime(w) && Runs(w, events) && NoFaults(events)
    ensures OnTime(After(w, events))
    decreases |events|
  {
    if events != [] {
      StepKeepsTime(w, events[0]);
      assert forall k :: 0 <= k < |events[1..]| ==> events[1..][k] == events[k + 1];
      RunKeepsTime(Apply(w, events[0]), events[1..]);
    }
  }

  /**
   In a run without faults in which every reconcile happens by its due time, no instance outlives
   by more than a minute its start plus its maximal lifetime, nor its last use plus its idle
   limit, where an edit of the spec may put the limit off to the time of that edit.
   */
  lemma CollectedInTime(name: string, space: string, clock: Time, events: seq<Event>)
    requires Runs(Start(name, space, clock), events) && NoFaults(events)
    ensures var w := After(Start(name, space, clock), events);
            w.c.instance.Some? ==>
              var i := w.c.instance.value;
              && (i.status.startedAt.Some? ==>
                    w.c.clock <= Passed(i.status.startedAt.value, Max(i.spec.Lifetime(), 0), w.edited) + MINUTE)
              && (i.status.lastUsedAt.Some? ==>
                    w.c.clock <= Passed(i.status.lastUsedAt.value, Max(i.spec.Idle(), SECOND), w.edited) + MINUTE)
  {
    RunKeepsTime(Start(name, space, clock), events);
  }
}
