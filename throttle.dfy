/** The controller object and the command-line entry point, step by step as
    the tool runs them against the remote service. Each method is proved
    against the value-level definitions of module Controller. */
module ThrottleTool {
  import opened Wrappers
  import opened Remote
  import Rates
  import opened Controller

  class Throttle {
    const client: Client

    constructor (client: Client)
      ensures this.client == client
    {
      this.client := client;
    }

    /** Logs in; the two caught login errors and a session that does not
        report being logged in all give false. */
    method CheckConnection(response: LoginResponse) returns (ok: bool)
      modifies client
      ensures ok == ConnectionOk(response) && client.loggedIn == ok
      ensures client.State() == old(client.State())
      ensures client.calls == old(client.calls) + [LogIn]
    {
      var raised := client.AuthLogIn(response);
      match raised {
        case Some(LoginFailed) =>
          return false;
        case Some(APIConnectionError) =>
          return false;
        case None =>
      }
      if client.loggedIn {
        return true;
      }
      return false;
    }

    method ThrottleDownload(rate: int, effect: WriteEffect) returns (ok: bool)
      modifies client
      ensures
        var o := Throttled(Download, old(client.download), rate, effect);
        && ok == o.ok && client.download == o.limit
        && client.calls == old(client.calls) + o.calls
      ensures client.upload == old(client.upload) && client.loggedIn == old(client.loggedIn)
    {
      var before := client.TransferDownloadLimit();
      var maxDownload := Rates.Target(rate);
      if maxDownload == before {
        return true;
      }
      client.TransferSetDownloadLimit(maxDownload, effect);
      var after := client.TransferDownloadLimit();
      if before == after {
        return false;
      }
      return true;
    }

    method ThrottleUpload(rate: int, effect: WriteEffect) returns (ok: bool)
      modifies client
      ensures
        var o := Throttled(Upload, old(client.upload), rate, effect);
        && ok == o.ok && client.upload == o.limit
        && client.calls == old(client.calls) + o.calls
      ensures client.download == old(client.download) && client.loggedIn == old(client.loggedIn)
    {
      var before := client.TransferUploadLimit();
      var maxUpload := Rates.Target(rate);
      if maxUpload == before {
        return true;
      }
      client.TransferSetUploadLimit(maxUpload, effect);
      var after := client.TransferUploadLimit();
      if before == after {
        return false;
      }
      return true;
    }

    method PauseAllTorrents() returns (ok: bool)
      modifies client
      ensures ok
      ensures client.State() == old(client.State()) && client.loggedIn == old(client.loggedIn)
      ensures client.calls == old(client.calls) + [PauseAll]
    {
      client.TorrentsPause();
      return true;
    }

    method ResumeAllTorrents() returns (ok: bool)
      modifies client
      ensures ok
      ensures client.State() == old(client.State()) && client.loggedIn == old(client.loggedIn)
      ensures client.calls == old(client.calls) + [ResumeAll]
    {
      client.TorrentsResume();
      return true;
    }
  }

  /** The entry point after argument parsing: check the connection and give
      up when it fails; otherwise issue the requested commands. The calls and
      final limits are those of the login followed by running
      Dispatch(connected, args) from the limits the service held. */
  method RunMain(client: Client, args: Request, login: LoginResponse, b: Behaviour) returns (connected: bool)
    modifies client
    ensures connected == ConnectionOk(login) && client.loggedIn == connected
    ensures
      var t := Execute(Dispatch(connected, args), old(client.State()), b);
      client.State() == t.limits && client.calls == old(client.calls) + [LogIn] + t.calls
  {
    var throttle := new Throttle(client);
    connected := throttle.CheckConnection(login);
    if !connected {
      return;
    }
    IssueCommands(throttle, args, b);
  }

  /** The commands of a connected run, in the order stop, start, download,
      upload, each only when requested; the outcome of each is not used. */
  method IssueCommands(throttle: Throttle, args: Request, b: Behaviour)
    modifies throttle.client
    ensures
      var t := Execute(Dispatch(true, args), old(throttle.client.State()), b);
      throttle.client.State() == t.limits && throttle.client.calls == old(throttle.client.calls) + t.calls
    ensures throttle.client.loggedIn == old(throttle.client.loggedIn)
  {
    var client := throttle.client;
    ghost var s0, base := client.State(), client.calls;
    // `t` holds the limits and calls the commands issued so far have left.
    ghost var t := Trace(s0, base);
    if args.stop {
      var _ := throttle.PauseAllTorrents();
    }
    t := ContinueIf(t, args.stop, Pause, b);
    assert client.download == t.limits.download && client.upload == t.limits.upload && client.calls == t.calls;
    if args.start {
      var _ := throttle.ResumeAllTorrents();
    }
    t := ContinueIf(t, args.start, Resume, b);
    assert client.download == t.limits.download && client.upload == t.limits.upload && client.calls == t.calls;
    if args.maxDownload.Some? {
      var _ := throttle.ThrottleDownload(args.maxDownload.value, b.download);
    }
    t := ContinueThrottle(t, Download, args.maxDownload, b);
    assert client.download == t.limits.download && client.upload == t.limits.upload && client.calls == t.calls;
    if args.maxUpload.Some? {
      var _ := throttle.ThrottleUpload(args.maxUpload.value, b.upload);
    }
    t := ContinueThrottle(t, Upload, args.maxUpload, b);
    assert client.download == t.limits.download && client.upload == t.limits.upload && client.calls == t.calls;
    DispatchSteps(args, s0, base, b);
  }
}
