/**
 * The image registry of src/main.rs: one loading thread per distinct image name, each
 * reached through a one-shot channel. A channel is modelled by what it will deliver: the
 * decoded image until it has been received, nothing afterwards.
 */
module Registry {
  import opened Common
  import opened Raster

  datatype Slot = Ready(image: Image) | Taken

  /** Why `images.get_mut(name).unwrap().recv().unwrap()` panics. */
  datatype RecvError =
    | NoChannel(name: string)     // no channel was made for the name
    | Disconnected(name: string)  // its single image has already been received

  /** The distinct names in order of first occurrence: the order the threads are spawned in. */
  function Dedup(names: seq<string>): (r: seq<string>)
    decreases |names|
  {
    if names == [] then []
    else
      var prefix := names[..|names| - 1];
      var name := names[|names| - 1];
      if name in prefix then Dedup(prefix) else Dedup(prefix) + [name]
  }

  /** The distinct names of a list. */
  function NameSet(names: seq<string>): (r: set<string>) {
    set n | n in names
  }

  /** The channel map once every name has its loading thread: each name delivers `open(name)`. */
  function ChannelsFor(names: seq<string>, open: string -> Image): (r: map<string, Slot>) {
    map n | n in names :: Ready(open(n))
  }

  /** There is a channel for every listed name and for nothing else; each delivers its decoded image. */
  lemma ChannelsForNames(names: seq<string>, open: string -> Image)
    ensures ChannelsFor(names, open).Keys == NameSet(names)
    ensures forall n | n in NameSet(names) :: ChannelsFor(names, open)[n] == Ready(open(n))
  {
  }

  /** Every name is loaded exactly once, and nothing else is loaded. */
  lemma {:induction false} DedupExactlyOnce(names: seq<string>)
    ensures forall n :: multiset(Dedup(names))[n] == if n in names then 1 else 0
    decreases |names|
  {
    if names != [] {
      var prefix := names[..|names| - 1];
      var name := names[|names| - 1];
      assert names == prefix + [name];
      assert forall n :: n in names <==> n in prefix || n == name;
      DedupExactlyOnce(prefix);
    }
  }

  /** Hence the number of loads is the number of distinct names. */
  lemma {:induction false} DedupCount(names: seq<string>)
    ensures |Dedup(names)| == |NameSet(names)|
    decreases |names|
  {
    if names != [] {
      var prefix := names[..|names| - 1];
      var name := names[|names| - 1];
      assert names == prefix + [name];
      DedupCount(prefix);
      if name in prefix {
        assert NameSet(names) == NameSet(prefix);
      } else {
        assert NameSet(names) == NameSet(prefix) + {name};
      }
    }
  }

  /**
   * The loading loop (src/main.rs:18-40): a name that already has a channel is skipped,
   * any other gets a thread, recorded in `spawned`, and a channel.
   */
  method LoadImages(imageNames: seq<string>, open: string -> Image)
    returns (images: map<string, Slot>, spawned: seq<string>)
    ensures images == ChannelsFor(imageNames, open)
    ensures spawned == Dedup(imageNames)
  {
    images, spawned := map[], [];
    for i := 0 to |imageNames|
      invariant images == ChannelsFor(imageNames[..i], open)
      invariant spawned == Dedup(imageNames[..i])
    {
      var name := imageNames[i];
      assert imageNames[..i + 1] == imageNames[..i] + [name];
      assert imageNames[..i + 1][..i] == imageNames[..i];
      if name in images {
        continue;
      }
      spawned := spawned + [name];
      images := images[name := Ready(open(name))];
    }
    assert imageNames[..|imageNames|] == imageNames;
  }

  /** `recv` on the named channel: the first call delivers the image, later calls fail. */
  function Recv(channels: map<string, Slot>, name: string): (r: Result<(Image, map<string, Slot>), RecvError>) {
    if name !in channels then Err(NoChannel(name))
    else match channels[name]
      case Taken => Err(Disconnected(name))
      case Ready(img) => Ok((img, channels[name := Taken]))
  }

  /**
   * Receiving succeeds exactly on a channel that still holds its image; it delivers that
   * image, touches no other channel, and a second receive on the same name fails.
   */
  lemma RecvOneShot(channels: map<string, Slot>, name: string)
    ensures Recv(channels, name).Ok? <==> name in channels && channels[name].Ready?
    ensures Recv(channels, name).Ok? ==>
      var (img, after) := Recv(channels, name).value;
      && img == channels[name].image
      && after.Keys == channels.Keys
      && (forall k | k in channels && k != name :: after[k] == channels[k])
      && Recv(after, name) == Err(Disconnected(name))
  {
  }
}
