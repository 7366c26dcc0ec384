/**
 * The startup decisions of the agent's entry point: which settings are read,
 * whether the device connects directly with its connection string or is
 * provisioned through the Device Provisioning Service (DPS), whether a
 * gateway certificate is installed first, and the order of the lifecycle
 * steps that follow. The plan is the sequence of externally visible steps
 * the entry point performs, ending at the first unhandled exception.
 */
module Startup {
  import opened Base
  import opened DotNetString
  import opened Config
  import opened Certificate

  /** The name under which the command handler is registered. */
  const MethodName := "TakePicture"

  /** The marker that denotes a connection routed through an edge gateway. */
  const GatewayMarker := "GatewayHostName"

  /** The keys of the settings in the configuration file. */
  const IdScopeKey := "idScope"
  const PrimaryKeyKey := "enrollmentGroupPrimaryKey"
  const SecondaryKeyKey := "enrollmentGroupSecondaryKey"
  const RegistrationIdKey := "registrationId"
  const ConnectionStringKey := "deviceStringConnection"
  const PicturePathKey := "pathToSavePicture"

  /** The settings read at startup, in the order they are read. */
  const PropertyKeys: seq<string> := [
    IdScopeKey, PrimaryKeyKey, SecondaryKeyKey, RegistrationIdKey, ConnectionStringKey, PicturePathKey
  ]

  /** The six settings as read, each null when the file does not define it. */
  datatype Settings = Settings(
    idScope: Option<string>,
    enrollmentGroupPrimaryKey: Option<string>,
    enrollmentGroupSecondaryKey: Option<string>,
    registrationId: Option<string>,
    deviceStringConnection: Option<string>,
    pathToSavePicture: Option<string>)

  /** Unhandled exceptions that end the process during startup. */
  datatype Fault =
    | ConfigFileNotFound      // reading AppProperties.conf fails
    | PropertyWithoutValue    // a setting's first matching line has no separator
    | InvalidCertificateFile  // the gateway certificate file is missing

  /** How the device client was obtained. */
  datatype Connection =
    | Direct(connectionString: string)
    | Provisioned(idScope: string, registrationId: string, primaryKey: string, secondaryKey: string)

  /** The externally visible steps of the entry point. */
  datatype Step =
    | ReportMissingConfig        // the diagnostic printed when neither mode is configured
    | InstallCert(path: string)  // the root certificate is added to the trust store
    | Connect(connection: Connection)  // the device client is created, directly or through DPS
    | RegisterHandler(methodName: string)
    | InitCamera                 // the camera singleton is obtained
    | Open
    | AwaitConsoleLine           // blocks until a line is read from the console
    | Close
    | Cleanup                    // the camera is released
    | Crash(fault: Fault)        // an unhandled exception ends the process

  /** The lifecycle that follows the creation of the client, in source order. */
  const SessionSteps: seq<Step> := [RegisterHandler(MethodName), InitCamera, Open, AwaitConsoleLine, Close, Cleanup]

  /** All four DPS settings are non-blank. */
  predicate DpsInfoOk(s: Settings) {
    !IsNullOrWhiteSpace(s.idScope) && !IsNullOrWhiteSpace(s.enrollmentGroupPrimaryKey)
    && !IsNullOrWhiteSpace(s.enrollmentGroupSecondaryKey) && !IsNullOrWhiteSpace(s.registrationId)
  }

  /** The connection string is non-blank. */
  predicate DirectConnection(s: Settings) {
    !IsNullOrWhiteSpace(s.deviceStringConnection)
  }

  /**
   * The steps that obtain the device client: a non-blank connection string
   * wins, after the gateway certificate when the string names a gateway;
   * otherwise the device is provisioned through DPS.
   */
  function ClientSteps(s: Settings, certFileExists: bool): seq<Step>
    requires DpsInfoOk(s) || DirectConnection(s)
  {
    if DirectConnection(s) then
      var cs := s.deviceStringConnection.value;
      if Contains(cs, GatewayMarker) then
        match InstallCACert(certFileExists)
        case CertificateMissing(_) => [Crash(InvalidCertificateFile)]
        case Installed(path) => [InstallCert(path), Connect(Direct(cs))]
        case NotConfigured => [Connect(Direct(cs))]
      else
        [Connect(Direct(cs))]
    else
      [Connect(Provisioned(s.idScope.value, s.registrationId.value,
                           s.enrollmentGroupPrimaryKey.value, s.enrollmentGroupSecondaryKey.value))]
  }

  /** The steps the entry point performs once the settings are read. */
  function StartupPlan(s: Settings, certFileExists: bool): seq<Step>
  {
    if !(DpsInfoOk(s) || DirectConnection(s)) then
      [ReportMissingConfig, AwaitConsoleLine]
    else
      var c := ClientSteps(s, certFileExists);
      if c[|c| - 1].Crash? then c else c + SessionSteps
  }

  /**
   * How many reads return, counting from the `k`-th: the reads go in order
   * and the first that throws ends them.
   */
  function ReadsFrom(config: seq<string>, k: nat): (n: nat)
    requires k <= |PropertyKeys|
    ensures k <= n <= |PropertyKeys|
    decreases |PropertyKeys| - k
  {
    if k == |PropertyKeys| || Lookup(config, PropertyKeys[k]).MissingValue? then k
    else ReadsFrom(config, k + 1)
  }

  /** The number of settings read before the first read that throws (all six when none does). */
  function ReadCount(config: seq<string>): nat
  {
    ReadsFrom(config, 0)
  }

  /** The first `n` settings are read without an exception. */
  predicate Reached(config: seq<string>, n: nat)
    requires n <= |PropertyKeys|
  {
    n <= ReadCount(config)
  }

  /** Every read counted from `k` returns, and the read after them, if any, throws. */
  lemma {:induction false} ReadsFromMeaning(config: seq<string>, k: nat)
    requires k <= |PropertyKeys|
    ensures forall m | k <= m < ReadsFrom(config, k) :: !Lookup(config, PropertyKeys[m]).MissingValue?
    ensures ReadsFrom(config, k) < |PropertyKeys| ==> Lookup(config, PropertyKeys[ReadsFrom(config, k)]).MissingValue?
    decreases |PropertyKeys| - k
  {
    if k < |PropertyKeys| && !Lookup(config, PropertyKeys[k]).MissingValue? {
      ReadsFromMeaning(config, k + 1);
    }
  }

  /** The count is right: the reads it counts return, and the next read, if any, throws. */
  lemma ReadCountMeaning(config: seq<string>)
    ensures forall m | 0 <= m < ReadCount(config) :: !Lookup(config, PropertyKeys[m]).MissingValue?
    ensures ReadCount(config) < |PropertyKeys| ==> Lookup(config, PropertyKeys[ReadCount(config)]).MissingValue?
  {
    ReadsFromMeaning(config, 0);
  }

  /** The first `n` settings are reached exactly when none of their reads throws. */
  lemma ReachedIff(config: seq<string>, n: nat)
    requires n <= |PropertyKeys|
    ensures Reached(config, n) <==> forall m | 0 <= m < n :: !Lookup(config, PropertyKeys[m]).MissingValue?
  {
    ReadCountMeaning(config);
  }

  /** A read that returns passes the count on to the next read. */
  lemma ReadsPast(config: seq<string>, k: nat)
    requires k < |PropertyKeys| && !Lookup(config, PropertyKeys[k]).MissingValue?
    ensures ReadsFrom(config, k) == ReadsFrom(config, k + 1)
  {
  }

  /** The count stops at a read that throws, or after the last read. */
  lemma ReadsStopAt(config: seq<string>, k: nat)
    requires k <= |PropertyKeys|
    requires k < |PropertyKeys| ==> Lookup(config, PropertyKeys[k]).MissingValue?
    ensures ReadsFrom(config, k) == k
  {
  }

  /** The value of the `n`-th setting once it is read, or `prior` when an earlier read threw. */
  function LoadedField(config: seq<string>, n: nat, prior: Option<string>): Option<string>
    requires n < |PropertyKeys|
  {
    if n < ReadCount(config) then Nullable(Lookup(config, PropertyKeys[n])) else prior
  }

  /**
   * The settings after reading all six over `prior`: each read that returns
   * sets its field, and the first read that throws leaves that field and
   * every later one as it was.
   */
  function LoadedSettings(config: seq<string>, prior: Settings): Settings
  {
    Settings(
      LoadedField(config, 0, prior.idScope), LoadedField(config, 1, prior.enrollmentGroupPrimaryKey),
      LoadedField(config, 2, prior.enrollmentGroupSecondaryKey), LoadedField(config, 3, prior.registrationId),
      LoadedField(config, 4, prior.deviceStringConnection), LoadedField(config, 5, prior.pathToSavePicture))
  }

  /** The settings of a configuration all of whose reads return. */
  function SettingsOf(config: seq<string>): Settings
    requires Reached(config, |PropertyKeys|)
  {
    Settings(
      Nullable(Lookup(config, PropertyKeys[0])), Nullable(Lookup(config, PropertyKeys[1])),
      Nullable(Lookup(config, PropertyKeys[2])), Nullable(Lookup(config, PropertyKeys[3])),
      Nullable(Lookup(config, PropertyKeys[4])), Nullable(Lookup(config, PropertyKeys[5])))
  }

  /** Once every read returns, the loaded settings are the configuration's own, whatever came before. */
  lemma LoadedAll(config: seq<string>, prior: Settings)
    requires Reached(config, |PropertyKeys|)
    ensures LoadedSettings(config, prior) == SettingsOf(config)
  {
  }

  /** The whole entry point: read the file, read the settings, then start. */
  function MainPlan(configFile: Option<seq<string>>, certFileExists: bool): seq<Step>
  {
    match configFile
    case None => [Crash(ConfigFileNotFound)]
    case Some(config) =>
      if !Reached(config, |PropertyKeys|) then [Crash(PropertyWithoutValue)]
      else StartupPlan(SettingsOf(config), certFileExists)
  }

  /** The plan creates a device client. */
  predicate Connects(p: seq<Step>) {
    exists i :: 0 <= i < |p| && p[i].Connect?
  }

  /** Step `a` occurs somewhere before step `b`. */
  predicate Precedes(p: seq<Step>, a: Step, b: Step) {
    exists i, j :: 0 <= i < j < |p| && p[i] == a && p[j] == b
  }

  /** The last step of the client steps: the client created, or the certificate failure. */
  function ClientStepsLast(s: Settings, certFileExists: bool): Step
    requires DpsInfoOk(s) || DirectConnection(s)
  {
    var c := ClientSteps(s, certFileExists);
    c[|c| - 1]
  }

  /**
   * A plan that ends before a client is created, because neither mode is
   * configured or the certificate is missing, creates no client and never
   * obtains the camera.
   */
  lemma UnconnectedPlan(s: Settings, certFileExists: bool)
    requires !(DpsInfoOk(s) || DirectConnection(s)) || !ClientStepsLast(s, certFileExists).Connect?
    ensures var p := StartupPlan(s, certFileExists);
            (forall i | 0 <= i < |p| :: !p[i].Connect?) && InitCamera !in p && !Connects(p)
    ensures StartupPlan(s, certFileExists) ==
              if DpsInfoOk(s) || DirectConnection(s) then ClientSteps(s, certFileExists)
              else [ReportMissingConfig, AwaitConsoleLine]
  {
    InstallCACertOutcome(certFileExists);
    if DpsInfoOk(s) || DirectConnection(s) {
      assert ClientSteps(s, certFileExists) == [Crash(InvalidCertificateFile)];
    }
  }

  /**
   * A plan that creates a client is the client steps followed by the
   * lifecycle; it obtains the camera, and every client step in it creates
   * the same client.
   */
  lemma ConnectedPlan(s: Settings, certFileExists: bool)
    requires (DpsInfoOk(s) || DirectConnection(s)) && ClientStepsLast(s, certFileExists).Connect?
    ensures var c := ClientSteps(s, certFileExists);
            var p := StartupPlan(s, certFileExists);
            p == c + SessionSteps && InitCamera in p && Connects(p)
            && forall i | 0 <= i < |p| && p[i].Connect? :: p[i] == c[|c| - 1]
  {
    var c := ClientSteps(s, certFileExists);
    var p := StartupPlan(s, certFileExists);
    assert p == c + SessionSteps;
    assert p[|c| + 1] == InitCamera;
    assert p[|c| - 1].Connect?;
    ConnectedPlanShape(s, certFileExists);
    ShapeClientOnce(p);
  }

  /**
   * A client is created only if all four DPS settings or the connection
   * string are non-blank; otherwise the diagnostic is printed, the console
   * read, and nothing else happens.
   */
  lemma ConnectsOnlyWhenConfigured(s: Settings, certFileExists: bool)
    ensures Connects(StartupPlan(s, certFileExists)) ==> DpsInfoOk(s) || DirectConnection(s)
    ensures !(DpsInfoOk(s) || DirectConnection(s)) ==>
              StartupPlan(s, certFileExists) == [ReportMissingConfig, AwaitConsoleLine]
  {
    var p := StartupPlan(s, certFileExists);
    if !(DpsInfoOk(s) || DirectConnection(s)) {
      assert forall i :: 0 <= i < |p| ==> !p[i].Connect?;
    }
  }

  /**
   * A non-blank connection string is always used, even when the DPS settings
   * are complete too; DPS is used only when the connection string is blank.
   */
  lemma DirectConnectionWins(s: Settings, certFileExists: bool)
    ensures var p := StartupPlan(s, certFileExists);
            DirectConnection(s) ==>
              forall i | 0 <= i < |p| && p[i].Connect? :: p[i].connection == Direct(s.deviceStringConnection.value)
    ensures var p := StartupPlan(s, certFileExists);
            !DirectConnection(s) ==>
              forall i | 0 <= i < |p| && p[i].Connect? ::
                DpsInfoOk(s) && p[i].connection == Provisioned(s.idScope.value, s.registrationId.value,
                                                               s.enrollmentGroupPrimaryKey.value, s.enrollmentGroupSecondaryKey.value)
  {
  }

  /**
   * The certificate is installed exactly when the connection string is used
   * and names a gateway and the file exists; startup fails on the
   * certificate exactly when it names a gateway and the file is missing.
   */
  lemma CertificateOnlyForGateway(s: Settings, certFileExists: bool)
    ensures var p := StartupPlan(s, certFileExists);
            (exists i :: 0 <= i < |p| && p[i].InstallCert?)
            <==> DirectConnection(s) && Contains(s.deviceStringConnection.value, GatewayMarker) && certFileExists
    ensures Crash(InvalidCertificateFile) in StartupPlan(s, certFileExists)
            <==> DirectConnection(s) && Contains(s.deviceStringConnection.value, GatewayMarker) && !certFileExists
  {
    InstallCACertOutcome(certFileExists);
    var p := StartupPlan(s, certFileExists);
    if DirectConnection(s) && Contains(s.deviceStringConnection.value, GatewayMarker) && certFileExists {
      assert p[0].InstallCert?;
    } else {
      assert forall i :: 0 <= i < |p| ==> !p[i].InstallCert?;
    }
  }

  /**
   * The certificate is installed before the client is created, and a
   * missing certificate ends startup before any client exists.
   */
  lemma CertificateBeforeClient(s: Settings, certFileExists: bool)
    ensures var p := StartupPlan(s, certFileExists);
            forall i, j | 0 <= i < |p| && 0 <= j < |p| && p[i].InstallCert? && p[j].Connect? :: i < j
    ensures Crash(InvalidCertificateFile) in StartupPlan(s, certFileExists) ==>
              StartupPlan(s, certFileExists) == [Crash(InvalidCertificateFile)]
  {
    InstallCACertOutcome(certFileExists);
  }

  /** The optional certificate step, the client, then the lifecycle. */
  predicate ConnectedShape(p: seq<Step>) {
    |p| > |SessionSteps| && p[|p| - |SessionSteps|..] == SessionSteps
    && p[|p| - |SessionSteps| - 1].Connect?
    && forall i | 0 <= i < |p| - |SessionSteps| - 1 :: p[i].InstallCert?
  }

  /** Every plan that creates a client has that shape. */
  lemma ConnectedPlanShape(s: Settings, certFileExists: bool)
    requires Connects(StartupPlan(s, certFileExists))
    ensures ConnectedShape(StartupPlan(s, certFileExists))
  {
    InstallCACertOutcome(certFileExists);
  }

  lemma ShapeClientOnce(p: seq<Step>)
    requires ConnectedShape(p)
    ensures forall i, j | 0 <= i < |p| && 0 <= j < |p| && p[i].Connect? && p[j].Connect? :: i == j
    ensures forall i | 0 <= i < |p| && p[i].Connect? :: Precedes(p, p[i], RegisterHandler(MethodName))
  {
    var off := |p| - |SessionSteps|;
    SessionStepKinds();
    assert forall i | off <= i < |p| :: p[i] == SessionSteps[i - off];
    assert forall i | off <= i < |p| :: !p[i].Connect?;
    forall i | 0 <= i < |p| && p[i].Connect?
      ensures Precedes(p, p[i], RegisterHandler(MethodName))
    {
      assert p[off] == RegisterHandler(MethodName);
    }
  }

  lemma ShapeSessionOrder(p: seq<Step>)
    requires ConnectedShape(p)
    ensures forall a, b | 0 <= a < b < |SessionSteps| :: Precedes(p, SessionSteps[a], SessionSteps[b])
  {
    var off := |p| - |SessionSteps|;
    forall a, b | 0 <= a < b < |SessionSteps|
      ensures Precedes(p, SessionSteps[a], SessionSteps[b])
    {
      assert p[off..][a] == p[off + a] && p[off..][b] == p[off + b];
    }
  }

  lemma ShapeSessionOnce(p: seq<Step>)
    requires ConnectedShape(p)
    ensures forall a | 0 <= a < |SessionSteps| :: multiset(p)[SessionSteps[a]] == 1
  {
    var pre := p[..|p| - |SessionSteps|];
    assert p == pre + SessionSteps;
    ClientPrefixOnce(pre);
  }

  /** After a prefix of certificate and client steps, each lifecycle step occurs once. */
  lemma ClientPrefixOnce(pre: seq<Step>)
    requires forall i | 0 <= i < |pre| :: pre[i].InstallCert? || pre[i].Connect?
    ensures forall a | 0 <= a < |SessionSteps| :: multiset(pre + SessionSteps)[SessionSteps[a]] == 1
  {
    assert multiset(pre + SessionSteps) == multiset(pre) + multiset(SessionSteps);
    SessionStepKinds();
    forall a | 0 <= a < |SessionSteps|
      ensures multiset(pre + SessionSteps)[SessionSteps[a]] == 1
    {
      var x := SessionSteps[a];
      SessionStepOnce(a);
      assert forall i | 0 <= i < |pre| :: pre[i] != x;
      assert multiset(pre)[x] == 0;
    }
  }

  /** No lifecycle step installs a certificate or creates a client. */
  lemma SessionStepKinds()
    ensures forall a | 0 <= a < |SessionSteps| :: !SessionSteps[a].InstallCert? && !SessionSteps[a].Connect?
  {
  }

  /** Each lifecycle step occurs once in the lifecycle. */
  lemma SessionStepOnce(a: nat)
    requires a < |SessionSteps|
    ensures multiset(SessionSteps)[SessionSteps[a]] == 1
  {
    assert multiset(SessionSteps) == multiset{RegisterHandler(MethodName), InitCamera, Open, AwaitConsoleLine, Close, Cleanup};
  }

  /**
   * Once a client is created it is created exactly once, before the handler
   * is registered.
   */
  lemma ClientCreatedOnce(s: Settings, certFileExists: bool)
    requires Connects(StartupPlan(s, certFileExists))
    ensures var p := StartupPlan(s, certFileExists);
            forall i, j | 0 <= i < |p| && 0 <= j < |p| && p[i].Connect? && p[j].Connect? :: i == j
    ensures var p := StartupPlan(s, certFileExists);
            forall i | 0 <= i < |p| && p[i].Connect? :: Precedes(p, p[i], RegisterHandler(MethodName))
  {
    ConnectedPlanShape(s, certFileExists);
    ShapeClientOnce(StartupPlan(s, certFileExists));
  }

  /**
   * After the client, the lifecycle runs in order: register the handler,
   * obtain the camera, open, wait for the console, close, release the
   * camera; each happens exactly once.
   */
  lemma SessionOrder(s: Settings, certFileExists: bool)
    requires Connects(StartupPlan(s, certFileExists))
    ensures forall a, b | 0 <= a < b < |SessionSteps| :: Precedes(StartupPlan(s, certFileExists), SessionSteps[a], SessionSteps[b])
    ensures forall a | 0 <= a < |SessionSteps| :: multiset(StartupPlan(s, certFileExists))[SessionSteps[a]] == 1
  {
    ConnectedPlanShape(s, certFileExists);
    ShapeSessionOrder(StartupPlan(s, certFileExists));
    ShapeSessionOnce(StartupPlan(s, certFileExists));
  }

  /** Reading the settings crashes when a required key's first matching line is the bare key. */
  lemma BareKeyLineCrashes(config: seq<string>, n: nat, i: nat, certFileExists: bool)
    requires n < |PropertyKeys| && FirstKeyMatch(config, PropertyKeys[n], i) && config[i] == PropertyKeys[n]
    ensures MainPlan(Some(config), certFileExists) == [Crash(PropertyWithoutValue)]
  {
    LookupMissingValue(config, PropertyKeys[n]);
    ReadCountMeaning(config);
  }
}
