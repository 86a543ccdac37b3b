/** The user's session and the named segments the controllers keep flash values in. */
module Session {
  import opened Optional

  /** Flash values are keyed by the request's `url` query value, which may be null. */
  type FlashKey = Option<string>

  /** The flash values a store holds for the segment `name` (none when it has no entry). */
  function FlashOf(store: map<string, map<FlashKey, string>>, name: string): map<FlashKey, string>
  {
    if name in store then store[name] else map[]
  }

  /**
   * The session of one user. Flash values live here, keyed first by segment
   * name: `readable` holds what each segment hands out to `getFlash` during
   * the current request (how values got there, and when they expire, belongs
   * to the session library and is not modelled); `written` holds what each
   * segment has been given with `setFlash` during the current request.
   */
  class Session {
    var readable: map<string, map<FlashKey, string>>
    var written: map<string, map<FlashKey, string>>

    constructor (readable: map<string, map<FlashKey, string>>, written: map<string, map<FlashKey, string>>)
      ensures this.readable == readable && this.written == written
    {
      this.readable := readable;
      this.written := written;
    }

    /**
     * `getSegment(name)`: a new handle on the region named `name`. Handles
     * with equal names see the same storage, since the storage is the
     * session's and the handle holds only the session and the name.
     */
    method GetSegment(name: string) returns (segment: Segment)
      ensures fresh(segment)
      ensures segment.session == this && segment.name == name
    {
      segment := new Segment(this, name);
    }
  }

  /** A handle on the region of `session` named `name`. */
  class Segment {
    const session: Session
    const name: string

    constructor (session: Session, name: string)
      ensures this.session == session && this.name == name
    {
      this.session := session;
      this.name := name;
    }

    /** The flash values this segment hands out during the current request. */
    function Incoming(): map<FlashKey, string>
      reads session
    {
      FlashOf(session.readable, name)
    }

    /** The flash values this segment has been given during the current request. */
    function Written(): map<FlashKey, string>
      reads session
    {
      FlashOf(session.written, name)
    }

    /** `getFlash(key)`: the flash value readable under `key`, or null when there is none. */
    function GetFlash(key: FlashKey): (r: Option<string>)
      reads session
      ensures r.Some? <==> key in FlashOf(session.readable, name)
      ensures r.Some? ==> r.value == FlashOf(session.readable, name)[key]
    {
      Lookup(Incoming(), key)
    }

    /**
     * `setFlash(key, value)`: records `value` under `key` in this segment;
     * no other key of this segment, no other segment and nothing readable
     * changes.
     */
    method SetFlash(key: FlashKey, value: string)
      modifies session
      ensures session.readable == old(session.readable)
      ensures Written() == old(Written())[key := value]
      ensures forall n :: n != name ==> FlashOf(session.written, n) == FlashOf(old(session.written), n)
    {
      session.written := session.written[name := Written()[key := value]];
    }
  }
}
