/** The remote torrent-management service as the controller sees it through
    its API client: two global rate limits, a login state, and the sequence
    of calls the controller has issued. The service is not trusted to apply
    a limit write, so how each write lands is given by the caller as a
    WriteEffect. */
module Remote {
  import opened Wrappers

  datatype Direction = Download | Upload

  /** One remote call, in the order the controller issues them. */
  datatype Call =
    | LogIn
    | ReadLimit(dir: Direction)
    | WriteLimit(dir: Direction, limit: int)
    | PauseAll
    | ResumeAll

  /** What the service does with a limit write: stores the requested value,
      silently drops it, or ends up holding some other value. */
  datatype WriteEffect = Applied | Dropped | Overridden(held: int)

  /** The limit the service holds after a write of `requested` while it held `current`. */
  function AfterWrite(current: int, requested: int, e: WriteEffect): int {
    match e
    case Applied => requested
    case Dropped => current
    case Overridden(held) => held
  }

  /** The two errors the login call may raise that the controller catches. */
  datatype LoginError = LoginFailed | APIConnectionError

  /** How the login call ends: it returns, after which the session does or
      does not report being logged in, or it raises one of the caught errors. */
  datatype LoginResponse = Returned(sessionLoggedIn: bool) | Raised(error: LoginError)

  /** The two global limits, in bytes/s; 0 means unlimited. */
  datatype Limits = Limits(download: int, upload: int) {
    function Get(dir: Direction): int {
      match dir
      case Download => download
      case Upload => upload
    }

    function With(dir: Direction, limit: int): (r: Limits)
      ensures r.Get(dir) == limit
      ensures forall d :: d != dir ==> r.Get(d) == Get(d)
    {
      match dir
      case Download => this.(download := limit)
      case Upload => this.(upload := limit)
    }
  }

  class Client {
    var download: int
    var upload: int
    var loggedIn: bool
    var calls: seq<Call>

    constructor (initial: Limits)
      ensures State() == initial && !loggedIn && calls == []
    {
      download, upload := initial.download, initial.upload;
      loggedIn := false;
      calls := [];
    }

    function State(): Limits
      reads this
    {
      Limits(download, upload)
    }

    /** Authenticates; afterwards the session is logged in exactly when the
        call returned and the service accepted it. */
    method AuthLogIn(response: LoginResponse) returns (raised: Option<LoginError>)
      modifies this
      ensures raised == if response.Raised? then Some(response.error) else None
      ensures loggedIn == (response == Returned(true))
      ensures State() == old(State()) && calls == old(calls) + [LogIn]
    {
      calls := calls + [LogIn];
      loggedIn := response == Returned(true);
      raised := if response.Raised? then Some(response.error) else None;
    }

    method TransferDownloadLimit() returns (limit: int)
      modifies this`calls
      ensures limit == download
      ensures calls == old(calls) + [ReadLimit(Download)]
    {
      calls := calls + [ReadLimit(Download)];
      limit := download;
    }

    method TransferSetDownloadLimit(limit: int, effect: WriteEffect)
      modifies this`download, this`calls
      ensures download == AfterWrite(old(download), limit, effect)
      ensures calls == old(calls) + [WriteLimit(Download, limit)]
    {
      calls := calls + [WriteLimit(Download, limit)];
      download := AfterWrite(download, limit, effect);
    }

    method TransferUploadLimit() returns (limit: int)
      modifies this`calls
      ensures limit == upload
      ensures calls == old(calls) + [ReadLimit(Upload)]
    {
      calls := calls + [ReadLimit(Upload)];
      limit := upload;
    }

    method TransferSetUploadLimit(limit: int, effect: WriteEffect)
      modifies this`upload, this`calls
      ensures upload == AfterWrite(old(upload), limit, effect)
      ensures calls == old(calls) + [WriteLimit(Upload, limit)]
    {
      calls := calls + [WriteLimit(Upload, limit)];
      upload := AfterWrite(upload, limit, effect);
    }

    method TorrentsPause()
      modifies this`calls
      ensures calls == old(calls) + [PauseAll]
    {
      calls := calls + [PauseAll];
    }

    method TorrentsResume()
      modifies this`calls
      ensures calls == old(calls) + [ResumeAll]
    {
      calls := calls + [ResumeAll];
    }
  }
}
