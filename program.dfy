/**
 * The agent's state and its imperative operations: the static fields of the
 * program become the fields of one object, the entry point appends the steps
 * it performs to `trace`, each capture attempt records the target it hands to
 * the capture handler in `captures`, and every telemetry message issued goes into `telemetry`.
 */
module SensorCamera {
  import opened Base
  import opened DotNetString
  import opened Config
  import opened Certificate
  import opened Startup
  import opened Command

  class Program {
    var config: seq<string>
    var idScope: Option<string>
    var enrollmentGroupPrimaryKey: Option<string>
    var enrollmentGroupSecondaryKey: Option<string>
    var registrationId: Option<string>
    var deviceStringConnection: Option<string>
    var pathToSavePicture: Option<string>
    var deviceClient: Option<Connection>  // null until a client is created
    var cam: bool                         // the camera singleton has been obtained

    var trace: seq<Step>                  // the entry point's visible steps, in order
    var captures: seq<CaptureTarget>      // the target of every capture attempt, in order
    var telemetry: seq<string>            // every telemetry message issued, in order

    /** The process before the entry point runs: every reference null, nothing done yet. */
    constructor ()
      ensures config == [] && idScope == None && enrollmentGroupPrimaryKey == None
      ensures enrollmentGroupSecondaryKey == None && registrationId == None
      ensures deviceStringConnection == None && pathToSavePicture == None
      ensures deviceClient == None && !cam
      ensures trace == [] && captures == [] && telemetry == []
    {
      config := [];
      idScope, enrollmentGroupPrimaryKey, enrollmentGroupSecondaryKey := None, None, None;
      registrationId, deviceStringConnection, pathToSavePicture := None, None, None;
      deviceClient := None;
      cam := false;
      trace, captures, telemetry := [], [], [];
    }

    /** `ReadConfigFile`: keep the file's lines, or report that the file cannot be read. */
    method ReadConfigFile(configFile: Option<seq<string>>) returns (ok: bool)
      modifies this`config
      ensures ok == configFile.Some?
      ensures config == if ok then configFile.value else old(config)
    {
      ok := configFile.Some?;
      if ok {
        config := configFile.value;
      }
    }

    /**
     * Read the six settings in order, each into its field; the first read that
     * throws stops the sequence and leaves the later fields as they were.
     */
    method LoadProperties() returns (ok: bool)
      modifies this`idScope, this`enrollmentGroupPrimaryKey, this`enrollmentGroupSecondaryKey
      modifies this`registrationId, this`deviceStringConnection, this`pathToSavePicture
      ensures ok == Reached(config, |PropertyKeys|)
      ensures CurrentSettings() == LoadedSettings(config, old(CurrentSettings()))
    {
      ok := false;
      var r := GetProperty(config, PropertyKeys[0]);
      if r.MissingValue? {
        ReadsStopAt(config, 0);
        return;
      }
      ReadsPast(config, 0);
      idScope := Nullable(r);
      r := GetProperty(config, PropertyKeys[1]);
      if r.MissingValue? {
        ReadsStopAt(config, 1);
        return;
      }
      ReadsPast(config, 1);
      enrollmentGroupPrimaryKey := Nullable(r);
      r := GetProperty(config, PropertyKeys[2]);
      if r.MissingValue? {
        ReadsStopAt(config, 2);
        return;
      }
      ReadsPast(config, 2);
      enrollmentGroupSecondaryKey := Nullable(r);
      r := GetProperty(config, PropertyKeys[3]);
      if r.MissingValue? {
        ReadsStopAt(config, 3);
        return;
      }
      ReadsPast(config, 3);
      registrationId := Nullable(r);
      r := GetProperty(config, PropertyKeys[4]);
      if r.MissingValue? {
        ReadsStopAt(config, 4);
        return;
      }
      ReadsPast(config, 4);
      deviceStringConnection := Nullable(r);
      r := GetProperty(config, PropertyKeys[5]);
      if r.MissingValue? {
        ReadsStopAt(config, 5);
        return;
      }
      ReadsPast(config, 5);
      pathToSavePicture := Nullable(r);
      ReadsStopAt(config, 6);
      ok := true;
    }

    /** The six settings as the fields hold them. */
    function CurrentSettings(): Settings
      reads this`idScope, this`enrollmentGroupPrimaryKey, this`enrollmentGroupSecondaryKey
      reads this`registrationId, this`deviceStringConnection, this`pathToSavePicture
    {
      Settings(idScope, enrollmentGroupPrimaryKey, enrollmentGroupSecondaryKey,
               registrationId, deviceStringConnection, pathToSavePicture)
    }

    /**
     * The entry point: read the configuration and the settings, then start.
     * The steps it performs are exactly `MainPlan`.
     */
    method Run(configFile: Option<seq<string>>, certFileExists: bool)
      modifies this`config, this`idScope, this`enrollmentGroupPrimaryKey, this`enrollmentGroupSecondaryKey
      modifies this`registrationId, this`deviceStringConnection, this`pathToSavePicture
      modifies this`deviceClient, this`cam, this`trace
      ensures trace == old(trace) + MainPlan(configFile, certFileExists)
      ensures config == if configFile.Some? then configFile.value else old(config)
      ensures CurrentSettings() == if configFile.Some? then LoadedSettings(config, old(CurrentSettings())) else old(CurrentSettings())
      ensures var p := MainPlan(configFile, certFileExists);
              forall i | 0 <= i < |p| && p[i].Connect? :: deviceClient == Some(p[i].connection)
      ensures !Connects(MainPlan(configFile, certFileExists)) ==> deviceClient == old(deviceClient)
      ensures cam == (old(cam) || InitCamera in MainPlan(configFile, certFileExists))
    {
      ghost var prior := CurrentSettings();
      var ok := ReadConfigFile(configFile);
      if !ok {
        trace := trace + [Crash(ConfigFileNotFound)];
        assert MainPlan(configFile, certFileExists) == [Crash(ConfigFileNotFound)];
        return;
      }
      ok := LoadProperties();
      if !ok {
        trace := trace + [Crash(PropertyWithoutValue)];
        assert MainPlan(configFile, certFileExists) == [Crash(PropertyWithoutValue)];
        return;
      }
      LoadedAll(config, prior);
      assert MainPlan(configFile, certFileExists) == StartupPlan(CurrentSettings(), certFileExists);
      Start(certFileExists);
    }

    /**
     * The rest of the entry point once the settings are read: check that one
     * connection mode is configured, create the client, register the
     * handler, obtain the camera, open, wait for the console, close and
     * release the camera. The steps are `StartupPlan`.
     */
    method Start(certFileExists: bool)
      modifies this`trace, this`deviceClient, this`cam
      ensures trace == old(trace) + StartupPlan(CurrentSettings(), certFileExists)
      ensures var p := StartupPlan(CurrentSettings(), certFileExists);
              forall i | 0 <= i < |p| && p[i].Connect? :: deviceClient == Some(p[i].connection)
      ensures !Connects(StartupPlan(CurrentSettings(), certFileExists)) ==> deviceClient == old(deviceClient)
      ensures cam == (old(cam) || InitCamera in StartupPlan(CurrentSettings(), certFileExists))
    {
      ghost var st := CurrentSettings();
      var dpsInfoOk := DpsInfoOk(CurrentSettings());
      var directConnection := DirectConnection(CurrentSettings());
      if !(dpsInfoOk || directConnection) {
        trace := trace + [ReportMissingConfig, AwaitConsoleLine];
        UnconnectedPlan(st, certFileExists);
        return;
      }
      var ok := CreateClient(certFileExists);
      if !ok {
        UnconnectedPlan(st, certFileExists);
        return;
      }
      RunSession();
      assert CurrentSettings() == st;
      ConnectedPlan(st, certFileExists);
      assert deviceClient == Some(ClientStepsLast(st, certFileExists).connection);
    }

    /**
     * The session once the client exists: register the `TakePicture`
     * handler, obtain the camera, open the client, wait for a console line,
     * close the client and release the camera.
     */
    method RunSession()
      modifies this`trace, this`cam
      ensures trace == old(trace) + SessionSteps
      ensures cam
    {
      trace := trace + [RegisterHandler(MethodName)];
      cam := true;
      trace := trace + [InitCamera];
      trace := trace + [Open];
      trace := trace + [AwaitConsoleLine];
      trace := trace + [Close];
      trace := trace + [Cleanup];
    }

    /**
     * Obtain the device client: with a non-blank connection string, install
     * the gateway certificate first when the string names a gateway, then
     * create the client from the string; otherwise provision through DPS.
     * Returns false when the certificate installation throws.
     */
    method CreateClient(certFileExists: bool) returns (ok: bool)
      requires DpsInfoOk(CurrentSettings()) || DirectConnection(CurrentSettings())
      modifies this`trace, this`deviceClient
      ensures trace == old(trace) + ClientSteps(CurrentSettings(), certFileExists)
      ensures ok == ClientStepsLast(CurrentSettings(), certFileExists).Connect?
      ensures deviceClient == if ok then Some(ClientStepsLast(CurrentSettings(), certFileExists).connection) else old(deviceClient)
    {
      if !IsNullOrWhiteSpace(deviceStringConnection) {
        var cs := deviceStringConnection.value;
        if Contains(cs, GatewayMarker) {
          match InstallCACert(certFileExists)
          case CertificateMissing(_) =>
            trace := trace + [Crash(InvalidCertificateFile)];
            return false;
          case Installed(path) =>
            trace := trace + [InstallCert(path)];
          case NotConfigured =>
        }
        deviceClient := Some(Direct(cs));
      } else {
        deviceClient := Some(Provisioned(idScope.value, registrationId.value,
                                         enrollmentGroupPrimaryKey.value, enrollmentGroupSecondaryKey.value));
      }
      trace := trace + [Connect(deviceClient.value)];
      ok := true;
    }

    /** `SendTelemetryData`: issue the `newImage` event, but only when a client exists. */
    method SendTelemetryData()
      modifies this`telemetry
      ensures telemetry == old(telemetry) + if deviceClient.Some? then [TelemetryPayload] else []
    {
      if deviceClient.Some? {
        telemetry := telemetry + [TelemetryPayload];
      }
    }

    /**
     * `TakePictureAndSave`: the capture target is the save path; building the
     * handler, the encoder or the null sink may throw first, a null camera
     * then throws at its first use, and otherwise the pipeline decides.
     */
    method TakePictureAndSave(outcome: CaptureOutcome) returns (r: Outcome<HandlerFault>)
      modifies this`captures
      ensures captures == old(captures) + [CaptureTarget(CaptureDirectory(pathToSavePicture), PictureExtension)]
      ensures r == CaptureResult(cam, outcome)
    {
      captures := captures + [CaptureTarget(CaptureDirectory(pathToSavePicture), PictureExtension)];
      if outcome.SetupThrew? {
        return Fail(CaptureFailed(outcome.detail));
      }
      if !cam {
        return Fail(CameraNotInitialized);
      }
      if outcome.Threw? {
        return Fail(CaptureFailed(outcome.detail));
      }
      r := Pass;
    }

    /**
     * `TakePicture`, the direct-method handler. It always answers, with 200
     * exactly when the capture returned normally; the path update happens
     * before the capture and is kept when the capture fails; telemetry goes
     * out once, after a successful capture, when a client exists.
     */
    method TakePicture(request: MethodRequest, outcome: CaptureOutcome) returns (response: MethodResponse)
      modifies this`pathToSavePicture, this`captures, this`telemetry
      ensures pathToSavePicture ==
                if request.data.Some? then NewPath(old(pathToSavePicture), request.data.value) else old(pathToSavePicture)
      ensures captures == old(captures) +
                if request.data.Some? then [CaptureTarget(CaptureDirectory(pathToSavePicture), PictureExtension)] else []
      ensures response == Respond(request.name, HandlerResult(request.data.Some?, cam, outcome))
      ensures response.status == 200 || response.status == 400
      ensures response.status == 200 <==> request.data.Some? && cam && outcome.Returned?
      ensures telemetry == old(telemetry) +
                if response.status == 200 && deviceClient.Some? then [TelemetryPayload] else []
    {
      if request.data.None? {
        response := MethodResponse(ResultJson(ExceptionPrefix + ExceptionText(NullPayload)), 400);
        return;
      }
      var data := request.data.value;
      if !IsNullOrWhiteSpace(Some(data)) && !(data == NullToken) {
        data := RemoveAll(data, Quote);
        pathToSavePicture := Some(data);
      }
      var captured := TakePictureAndSave(outcome);
      match captured
      case Fail(f) =>
        response := MethodResponse(ResultJson(ExceptionPrefix + ExceptionText(f)), 400);
      case Pass =>
        SendTelemetryData();
        response := MethodResponse(ResultJson(ExecutedPrefix + request.name), 200);
    }
  }
}
