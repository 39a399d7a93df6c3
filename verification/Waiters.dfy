/** The `responses` table of a session and the capacity-one channels it hands out (relay/main.go:59-133). */
module Waiters {
  import opened Common

  /** `chans[i]` is the buffer of the channel made by the i-th call; `responses` maps an id to a channel. */
  datatype Table<M> = Table(responses: map<string, nat>, chans: seq<Option<M>>)

  function Empty<M>(): Table<M> { Table(map[], []) }

  function Register<M>(t: Table<M>, id: string): Table<M> {
    Table(t.responses[id := |t.chans|], t.chans + [None])
  }

  function Deregister<M>(t: Table<M>, id: string): Table<M> {
    t.(responses := t.responses - {id})
  }

  function Lookup<M>(t: Table<M>, id: string): Option<nat> {
    if id in t.responses then Some(t.responses[id]) else None
  }

  /** The `select` with a default branch: a full channel drops the message. */
  function TrySend<M>(t: Table<M>, ch: nat, m: M): Table<M>
    requires ch < |t.chans|
  {
    if t.chans[ch].None? then t.(chans := t.chans[ch := Some(m)]) else t
  }

  function Take<M>(t: Table<M>, ch: nat): Table<M>
    requires ch < |t.chans|
  {
    t.(chans := t.chans[ch := None])
  }
}
