// The client side of live forwards: parseForwardCommand turns `forward add|remove|list` into a request
// (launcher/mac/forward_commands.go). What the flag package makes of the arguments after `add` is a
// parameter.

module ForwardCommand {
  import opened Text
  import opened ForwardSpecs
  import opened ForwardService

  /**
   * flag.Parse: an error, or the --host-ip value and the remaining arguments. The option defaults to
   * 127.0.0.1; `Unset` is an explicit empty value, which the client, unlike the daemon, rejects.
   */
  datatype FlagResult = FlagError(error: string) | Flags(hostIP: HostIP, rest: seq<string>)

  const USAGE := "usage: launcher forward add [--host-ip <loopback-ip>] <name>:<guest-port>:<host-port> | remove <name> | list"

  /** The registry key of `forward remove <text>`: the client checks the text as the name of a dummy spec. */
  function RemoveKey(text: string): Option<string> {
    match ParseForwardSpec(text + ":1:0")
    case Ok(spec) => Some(spec.name)
    case Err(_) => None
  }

  /** The arguments the command accepts. */
  ghost predicate Accepted(args: seq<string>, flags: FlagResult) {
    && args != []
    && match args[0]
       case "add" =>
         && flags.Flags? && |flags.rest| == 1 && ParseForwardSpec(flags.rest[0]).Ok?
         && flags.hostIP.Parsed? && flags.hostIP.address != NotLoopback
       case "remove" => |args| == 2 && RemoveKey(args[1]).Some?
       case "list" => |args| == 1
       case _ => false
  }

  /**
   * An accepted add is one the daemon finds admissible under the very name the client read; an
   * accepted remove asks for the key of its argument; nothing else is accepted.
   */
  method ParseForwardCommand(args: seq<string>, flags: FlagResult) returns (r: Result<Request>)
    ensures r.Ok? <==> Accepted(args, flags)
    ensures r.Ok? ==> r.value.request == "forward-" + args[0]
    ensures r.Ok? && args[0] == "add" ==>
      && Admissible(r.value) && WantedSpec(r.value).name == r.value.name
      && ParseForwardSpec(flags.rest[0]) == Ok(WantedSpec(r.value)) && r.value.hostIP == flags.hostIP
    ensures r.Ok? && args[0] == "remove" ==> Some(r.value.name) == RemoveKey(args[1])
  {
    hide ParseForwardSpec, TrimSpace, AddressText;
    if |args| == 0 {
      return Err(USAGE);
    }
    var request := Request("forward-" + args[0], "", 0, 0, Unset);
    match args[0] {
      case "add" =>
        if flags.FlagError? {
          return Err(flags.error);
        }
        if |flags.rest| != 1 {
          return Err(USAGE);
        }
        var spec := ParseForwardSpec(flags.rest[0]);
        if spec.Err? {
          return Err(spec.error);
        }
        request := request.(name := spec.value.name, guestPort := spec.value.guestPort, hostPort := spec.value.hostPort);
        request := request.(hostIP := flags.hostIP);
        if !request.hostIP.Parsed? || request.hostIP.address == NotLoopback {
          return Err("host IP must be a loopback IP address");
        }
        ParseIdempotent(flags.rest[0]);
        ValidNameIsTrimmed(spec.value.name);
      case "remove" =>
        if |args| != 2 {
          return Err(USAGE);
        }
        var spec := ParseForwardSpec(args[1] + ":1:0");
        if spec.Err? {
          return Err(spec.error);
        }
        request := request.(name := spec.value.name);
      case "list" =>
        if |args| != 1 {
          return Err(USAGE);
        }
      case _ =>
        return Err(USAGE);
    }
    return Ok(request);
  }

  /** A remove addresses the trimmed text when that is a valid name, and is rejected otherwise. */
  lemma RemoveKeyIsTrimmedName(text: string)
    ensures RemoveKey(text) == if ValidName(TrimSpace(text)) then Some(TrimSpace(text)) else None
  {
    hide ParseForwardSpec, TrimSpace, Split;
    FormatThenParse(text, 1, 0);
    assert FormatForward(text, 1, 0) == text + ":1:0";
  }

  /**
   * `forward add` and `forward remove` agree on the key: the text before the first colon of any
   * mapping that add accepts, given to remove, addresses the forward that add registered.
   */
  lemma AddAndRemoveAgreeOnTheKey(value: string)
    requires ParseForwardSpec(value).Ok?
    ensures RemoveKey(Split(value, ':')[0]) == Some(ParseForwardSpec(value).value.name)
  {
    hide TrimSpace, Split, RemoveKey;
    RemoveKeyIsTrimmedName(Split(value, ':')[0]);
    ParseIdempotent(value);
  }
}
