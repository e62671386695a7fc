/**
 * The remote sandbox provider as the router sees it. Every call into the
 * provider's SDK is foreign, so each one is a value handed to the router:
 * a function from its arguments to either an answer or a thrown error.
 */
module SandboxProvider {
  import opened Wrappers

  /** The one port a sandbox exposes: the terminal server listens on it. */
  const TtydPort: int := 7681

  /** Hard lifetime of a sandbox asked for at allocation: 30 minutes in milliseconds. */
  const ProvisionTimeoutMs: int := 1800000

  /** Virtual CPUs asked for at allocation. */
  const Vcpus: int := 2

  /**
   * A value thrown by a provider or database call. `message` is None when the
   * thrown value carries no `message` field at all.
   */
  datatype Thrown = Thrown(message: Option<string>)

  /** Lifecycle state the provider reports for a sandbox. */
  datatype LiveStatus = Pending | Running | Stopping | Stopped | Failed

  /**
   * What the provider answers for a sandbox it knows: its state and its
   * port-to-URL resolver, which is taken never to throw here.
   */
  datatype LiveInfo = LiveInfo(status: LiveStatus, domain: int -> string)

  /** What `create` asks the provider to allocate. */
  datatype SandboxRequest = SandboxRequest(gitUrl: string, vcpus: int, timeoutMs: int, ports: seq<int>)

  /**
   * A freshly allocated sandbox: its id, and the resolver of a port to its
   * public URL, which throws for a port the sandbox does not expose.
   */
  datatype Handle = Handle(sandboxId: string, domain: int -> Result<string, Thrown>)

  /** The commands `create` runs inside a new sandbox, in this order; their arguments are opaque here. */
  datatype Step = DownloadTtyd | MakeExecutable | LaunchTtyd

  /**
   * What an awaited command returns when it does not throw. A command that is
   * not detached returns once it has exited, with its exit code; the detached
   * launch returns once it has started, before any exit code exists, and
   * `exitCode` then stands for whatever the call reports. Nobody reads it.
   */
  datatype CommandFinished = CommandFinished(exitCode: int)

  /** The provider calls `create` makes: allocation, and running a step inside a sandbox given by id. */
  datatype Provider = Provider(
    allocate: SandboxRequest -> Result<Handle, Thrown>,
    run: (string, Step) -> Result<CommandFinished, Thrown>)

  /** The same provider, except that every command that returns reports the exit code `codes` chooses. */
  function WithExitCodes(p: Provider, codes: (string, Step) -> int): (q: Provider)
    ensures forall id, s :: q.run(id, s).Failure? <==> p.run(id, s).Failure?
  {
    Provider(
      p.allocate,
      (id, s) => if p.run(id, s).Failure? then p.run(id, s) else Success(CommandFinished(codes(id, s))))
  }
}
