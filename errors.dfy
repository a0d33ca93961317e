/** The errors the multicast connection returns. Message texts and `%w` wrapping are not modelled;
    what is kept is which kind of error is returned and which underlying errors it carries, in order. */
module Errors {
  import opened Wrappers

  datatype Error =
    | NilAddress                  // a required bind or destination address is nil
    | BadNetwork(network: string) // the network tag is neither "udp4" nor "udp6"
    | NilInterface                // a nil interface was passed to a group join
    | NilGroup                    // a nil group address was passed to a group join
    | Sys(code: int)              // an error reported by the operating system or a control handle
    | NoInterfaceList(cause: Error)                       // host interface enumeration failed
    | JoinedNone(causes: seq<Error>)                      // no candidate interface joined the group
    | JoinedSome(fails: nat, total: nat, causes: seq<Error>) // some candidates failed to join
    | Combined(errs: seq<Error>)                          // several errors joined into one

  /** errors.Join: nil when there is nothing to join, otherwise one error carrying all of them. */
  function JoinErrors(errs: seq<Error>): Option<Error>
  {
    if errs == [] then None else Some(Combined(errs))
  }
}
