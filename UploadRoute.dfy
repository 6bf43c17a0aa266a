/** The `POST /api/upload` handler: after the multipart parser has run, it
    answers 400 when no file arrived, and otherwise opens an FTP client,
    connects, makes sure the upload directory exists, uploads the bytes under
    a generated name and closes the client, answering 200 with the public URL
    or, at the first failing step, 500 with the error's message. */
module UploadRoute {
  import opened JsText
  import opened Naming
  import opened FtpConfig

  type byte = bv8

  /** The part `req.file` describes once the parser has accepted it. The
      handler never reads `mimetype`: only files the filter accepted reach
      it. */
  datatype UploadedFile = UploadedFile(originalname: string, mimetype: string, buffer: seq<byte>)

  /** One awaited call made on the FTP client. */
  datatype FtpCall =
    | Access(options: AccessOptions)
    | EnsureDir(remoteDir: Option<string>)
    | UploadFrom(source: seq<byte>, remotePath: string)

  /** How the remote side answers each call: `None` when the returned promise
      resolves, `Some(message)` when it rejects with an error carrying that
      message. This stands in for the network. */
  datatype FtpBehaviour = FtpBehaviour(access: Option<string>, ensureDir: Option<string>, uploadFrom: Option<string>)

  /** What the handler sends back. */
  datatype UploadResult =
    | Ok(url: string, filename: string)
    | NoFile
    | FtpError(cause: string)

  datatype JsonBody =
    | SuccessBody(success: bool, url: string, filename: string)
    | ErrorBody(error: string)

  datatype HttpResponse = HttpResponse(status: int, body: JsonBody)

  const NoFileMessage: string := "Aucun fichier re\U{E7}u"
  const FtpErrorPrefix: string := "Erreur FTP : "

  /** `res.status(..).json(..)` for each outcome of the handler. */
  function ToHttp(r: UploadResult): (resp: HttpResponse)
    ensures resp.status == 200 <==> r.Ok?
    ensures resp.status == 400 <==> r.NoFile?
    ensures resp.status == 500 <==> r.FtpError?
    ensures r.Ok? ==> resp.body == SuccessBody(true, r.url, r.filename)
    ensures r.NoFile? ==> resp.body == ErrorBody(NoFileMessage)
    ensures r.FtpError? ==>
      (resp.body.ErrorBody? && |resp.body.error| >= |FtpErrorPrefix|
       && resp.body.error[..|FtpErrorPrefix|] == FtpErrorPrefix
       && resp.body.error[|FtpErrorPrefix|..] == r.cause)
  {
    match r
    case Ok(url, filename) => HttpResponse(200, SuccessBody(true, url, filename))
    case NoFile => HttpResponse(400, ErrorBody(NoFileMessage))
    case FtpError(cause) => HttpResponse(500, ErrorBody(FtpErrorPrefix + cause))
  }

  /** An `ftp.Client`, seen through the calls made on it. `calls` lists the
      awaited operations in the order they were started (a failing one
      included), `closeCount` counts calls to `close()`, and
      `callsWhenClosed` is how many calls had been made when it was last
      closed. */
  class FtpClient {
    const behaviour: FtpBehaviour
    var calls: seq<FtpCall>
    var closeCount: nat
    var callsWhenClosed: nat

    constructor (behaviour: FtpBehaviour)
      ensures this.behaviour == behaviour
      ensures calls == [] && closeCount == 0 && callsWhenClosed == 0
    {
      this.behaviour := behaviour;
      calls := [];
      closeCount := 0;
      callsWhenClosed := 0;
    }

    /** `await client.access(options)`; the result is the rejection, if any. */
    method Access(options: AccessOptions) returns (failure: Option<string>)
      modifies this
      ensures calls == old(calls) + [FtpCall.Access(options)] && closeCount == old(closeCount)
      ensures callsWhenClosed == old(callsWhenClosed)
      ensures failure == behaviour.access
    {
      calls := calls + [FtpCall.Access(options)];
      failure := behaviour.access;
    }

    /** `await client.ensureDir(remoteDir)`. */
    method EnsureDir(remoteDir: Option<string>) returns (failure: Option<string>)
      modifies this
      ensures calls == old(calls) + [FtpCall.EnsureDir(remoteDir)] && closeCount == old(closeCount)
      ensures callsWhenClosed == old(callsWhenClosed)
      ensures failure == behaviour.ensureDir
    {
      calls := calls + [FtpCall.EnsureDir(remoteDir)];
      failure := behaviour.ensureDir;
    }

    /** `await client.uploadFrom(Readable.from(source), remotePath)`. */
    method UploadFrom(source: seq<byte>, remotePath: string) returns (failure: Option<string>)
      modifies this
      ensures calls == old(calls) + [FtpCall.UploadFrom(source, remotePath)] && closeCount == old(closeCount)
      ensures callsWhenClosed == old(callsWhenClosed)
      ensures failure == behaviour.uploadFrom
    {
      calls := calls + [FtpCall.UploadFrom(source, remotePath)];
      failure := behaviour.uploadFrom;
    }

    /** `client.close()`; it never throws. */
    method Close()
      modifies this
      ensures calls == old(calls) && closeCount == old(closeCount) + 1
      ensures callsWhenClosed == |calls|
    {
      closeCount := closeCount + 1;
      callsWhenClosed := |calls|;
    }
  }

  /** The three awaited calls the handler makes for `file`, in source order. */
  function PlannedCalls(env: Env, file: UploadedFile, timestamp: int): seq<FtpCall>
  {
    [ Access(AccessOptionsFor(env)),
      EnsureDir(env.ftpUploadPath),
      UploadFrom(file.buffer, StoredName(timestamp, file.originalname)) ]
  }

  /** How many of the three calls are made: up to and including the first
      one that fails. */
  function StepsAttempted(b: FtpBehaviour): nat
  {
    if b.access.Some? then 1 else if b.ensureDir.Some? then 2 else 3
  }

  /** The handler. `file` is `req.file` (absent when the request carried no
      file part), `timestamp` the value `Date.now()` returns when it is read
      (after the upload directory is ready). A client is created only when a
      file is present; it is returned so that its calls can be inspected. */
  method HandleUpload(env: Env, file: Option<UploadedFile>, timestamp: int, behaviour: FtpBehaviour)
    returns (result: UploadResult, client: FtpClient?)
    ensures file.None? ==> result == NoFile && client == null
    ensures file.Some? ==> client != null && fresh(client) && client.behaviour == behaviour
    ensures file.Some? ==> client.closeCount == 1 && client.callsWhenClosed == |client.calls|
    ensures file.Some? ==>
      client.calls == PlannedCalls(env, file.value, timestamp)[..StepsAttempted(behaviour)]
    ensures file.Some? ==>
      result == (if behaviour.access.Some? then FtpError(behaviour.access.value)
                 else if behaviour.ensureDir.Some? then FtpError(behaviour.ensureDir.value)
                 else if behaviour.uploadFrom.Some? then FtpError(behaviour.uploadFrom.value)
                 else Ok(PublicUrl(env.publicBaseUrl, StoredName(timestamp, file.value.originalname)),
                         StoredName(timestamp, file.value.originalname)))
  {
    if file.None? {
      return NoFile, null;
    }
    var f := file.value;
    ghost var planned := PlannedCalls(env, f, timestamp);
    client := new FtpClient(behaviour);
    var failure := client.Access(AccessOptionsFor(env));
    if failure.None? {
      failure := client.EnsureDir(env.ftpUploadPath);
      if failure.None? {
        var filename := StoredName(timestamp, f.originalname);
        failure := client.UploadFrom(f.buffer, filename);
        assert client.calls == planned;
        if failure.None? {
          client.Close();
          var url := PublicUrl(env.publicBaseUrl, filename);
          return Ok(url, filename), client;
        }
      } else {
        assert client.calls == planned[..2];
      }
    } else {
      assert client.calls == planned[..1];
    }
    // catch (err)
    client.Close();
    result := FtpError(failure.value);
  }

  // ---------------------------------------------------------------------------
  // Properties of the handler's specification

  /** The calls a request makes are a prefix of the planned ones: each step
      appears at most once, always in the order access, ensureDir,
      uploadFrom, and a step is reached exactly when every earlier step
      succeeded. In particular the bytes are uploaded only after a
      successful connection and directory change, under the stored name. */
  lemma CallsFollowPlan(env: Env, file: UploadedFile, timestamp: int, b: FtpBehaviour)
    ensures var made := PlannedCalls(env, file, timestamp)[..StepsAttempted(b)];
      && (forall i :: 0 <= i < |made| ==> made[i] == PlannedCalls(env, file, timestamp)[i])
      && 1 <= |made| <= 3 && made[0] == Access(AccessOptionsFor(env))
      && (|made| >= 2 <==> b.access.None?)
      && (|made| == 3 <==> b.access.None? && b.ensureDir.None?)
      && (|made| == 3 ==> made[2] == UploadFrom(file.buffer, StoredName(timestamp, file.originalname)))
  {
  }
}
