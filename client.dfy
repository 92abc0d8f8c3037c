/**
 * The process-wide shared client handle. It starts absent; `set_client`
 * overwrites it unconditionally, so the last handle written is the current
 * one, and writing `None` clears it. The previous handle is not touched.
 *
 * The handle type is a parameter: the model only stores and returns
 * handles, it never uses them.
 */
module Client {
  import opened Wrappers

  class SharedClient<H> {
    /** The current handle (`_CLIENT`); `None` when no client is set. */
    var client: Option<H>

    /** At start no client is set. */
    constructor ()
      ensures client == None
    {
      client := None;
    }

    /** `set_client(handle)`: the handle given becomes the current one, whatever was there. */
    method SetClient(handle: Option<H>)
      modifies this
      ensures client == handle
    {
      client := handle;
    }
  }

  /** A fresh holder has no client; after `set_client(c)` the current client is `c`. */
  method SetsClient<H>(c: H) returns (initial: Option<H>, current: Option<H>)
    ensures initial == None
    ensures current == Some(c)
  {
    var holder := new SharedClient<H>();
    initial := holder.client;
    holder.SetClient(Some(c));
    current := holder.client;
  }

  /** A second `set_client` replaces the first handle. */
  method ReplacesClient<H>(c1: H, c2: H) returns (first: Option<H>, second: Option<H>)
    ensures first == Some(c1)
    ensures second == Some(c2)
  {
    var holder := new SharedClient<H>();
    holder.SetClient(Some(c1));
    first := holder.client;
    holder.SetClient(Some(c2));
    second := holder.client;
  }

  /** `set_client(None)` clears a handle that was set. */
  method ClearsClient<H>(c: H) returns (held: Option<H>, cleared: Option<H>)
    ensures held == Some(c)
    ensures cleared == None
  {
    var holder := new SharedClient<H>();
    holder.SetClient(Some(c));
    held := holder.client;
    holder.SetClient(None);
    cleared := holder.client;
  }
}
