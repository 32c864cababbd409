/**
 * What the bot reads from and does to the outside world, as state the
 * model can talk about: the object store (S3) holding JSON values, the
 * keys whose read fails, and the log of visible effects in the order they
 * happen (object writes, image look-ups for published losses, summary
 * tweets, logged failures, archive saves).
 */
module Effects {
  import opened Wrappers
  import opened Parser
  import opened Records
  import opened Diff
  import opened TextImage

  /** One entry of `URLS`: a tracked page and the country its losses
      belong to. */
  datatype Source = Source(url: string, country: string)

  /** The urls of the sources, in order (`URLS.keys()`). */
  function Urls(sources: seq<Source>): (urls: seq<string>)
    ensures |urls| == |sources|
    ensures forall i :: 0 <= i < |sources| ==> urls[i] == sources[i].url
  {
    seq(|sources|, i requires 0 <= i < |sources| => sources[i].url)
  }

  /** The countries of the sources, in order (`URLS.values()`). */
  function Countries(sources: seq<Source>): (countries: seq<string>)
    ensures |countries| == |sources|
    ensures forall i :: 0 <= i < |sources| ==> countries[i] == sources[i].country
  {
    seq(|sources|, i requires 0 <= i < |sources| => sources[i].country)
  }

  /** Why a comparison is aborted. */
  datatype Fault =
    | FetchFault(url: string)                         // the page or archive could not be fetched
    | NoSnapshot(url: string)                         // `closest['status']` raising KeyError
    | SnapshotUnavailable(url: string, status: string) // a closest snapshot whose status is not "200"
    | StoreFault(code: string)                        // a storage error other than NoSuchKey
    | BaselineFault(loadError: LoadError)             // stored records that cannot be rebuilt
    | ParseFault(parseError: ParseError)              // `parse_losses` raising
    | NoTimestamps                                    // `min()` of no fetched bodies

  /** A visible effect. */
  datatype Event =
    | Stored(key: string, value: Json)   // an object written to the store
    | Resolved(item: Tagged, ok: bool)   // `publish_losses` looking up one loss's image; `ok` is false when it raised and was logged
    | Posted(table: seq<Row>, image: Image)  // `publish_date_diff` tweeting its summary table as a picture
    | FailureLogged                      // `logging.exception` after a failed point-in-time summary
    | Archived(url: string)              // `save_url` asking the web archive to save a page

  /** The object store and the effect log. */
  class World {
    /** What the store holds, by key. */
    var objects: map<string, Json>
    /** Keys whose read fails, with the storage error code. */
    var faults: map<string, string>
    /** The visible effects so far, oldest first. */
    var events: seq<Event>

    constructor (objects: map<string, Json>, faults: map<string, string>)
      ensures this.objects == objects && this.faults == faults && events == []
    {
      this.objects := objects;
      this.faults := faults;
      events := [];
    }

    /** Reading a key: the stored value, the key's storage error, or the
        error code `NoSuchKey` for a key that was never written. */
    function Read(key: string): (r: Result<Json, string>)
      reads this
      ensures r.Ok? <==> key !in faults && key in objects
      ensures r.Ok? ==> r.value == objects[key]
      ensures key !in faults && key !in objects ==> r == Err("NoSuchKey")
    {
      if key in faults then Err(faults[key])
      else if key in objects then Ok(objects[key])
      else Err("NoSuchKey")
    }

    /** `put_object`: the key now holds the value, and the write is
        logged. */
    method Put(key: string, value: Json)
      modifies this
      ensures objects == old(objects)[key := value] && faults == old(faults)
      ensures events == old(events) + [Stored(key, value)]
    {
      objects := objects[key := value];
      events := events + [Stored(key, value)];
    }

    /** Appends an effect other than a write to the log. */
    method Log(e: Event)
      modifies this
      ensures objects == old(objects) && faults == old(faults)
      ensures events == old(events) + [e]
    {
      events := events + [e];
    }
  }
}
