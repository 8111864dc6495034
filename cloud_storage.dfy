/** The `cp` subcommand of a minimal `gsutil`: classify the two arguments as
    `gs://` locators or local paths, refuse local-to-local and gcs-to-gcs, then
    either upload a local file as one object or download one object into a
    local file. The file system and the storage service are an abstract
    `World` whose foreign steps may fail. */
module CloudStorage {
  import opened Results
  import opened PathNames

  newtype byte = x: int | 0 <= x < 256

  /** `util::GsUrl`: a bucket and, when the locator names one, an object. */
  datatype GsUrl = GsUrl(bucket: string, obj: Option<string>)

  /** Where a copy reads from or writes to. */
  datatype DataPath = Gs(url: GsUrl) | File(path: string) {
    /** `DataPath::is_file`. */
    predicate IsFile(): (b: bool)
      ensures b <==> this.File?
    {
      match this
      case File(_) => true
      case Gs(_) => false
    }
  }

  /** How an I/O step failed. */
  datatype IoError = NotFound | Failed

  /** The errors `cmd` can return. `Message` is the text the process prints
      for the errors `cmd` raises itself; for I/O errors it is the error
      kind's description, standing in for the operating system's message. */
  datatype Error =
    | Parse(reason: string)
    | BothLocated(location: string)
    | FileNameNotText
    | MissingObjectName
    | Context(subject: string, cause: IoError)
    | Io(cause: IoError)
    | Remote(reason: string)

  function Message(e: Error): string {
    match e
    case Parse(reason) => reason
    case BothLocated(location) => "source and destination are both located on " + location
    case FileNameNotText => "can't turn file_name into string"
    case MissingObjectName => "must provide a full object name to copy from"
    case Context(subject, _) => subject
    // the descriptions of `io::ErrorKind::NotFound` and `io::ErrorKind::Other`
    case Io(NotFound) => "entity not found"
    case Io(Failed) => "other error"
    case Remote(reason) => reason
  }

  /** `url::Url::parse` followed by `util::gs_url_to_object_id`: two partial
      functions whose insides are not part of this model. */
  datatype UrlParser<!U> = UrlParser(parse: string -> Result<U, Error>, objectId: U -> Result<GsUrl, Error>)

  predicate HasGsScheme(s: string) {
    "gs://" <= s
  }

  /** `DataPath::try_from`. */
  function TryFrom<U>(s: string, parser: UrlParser<U>): (r: Result<DataPath, Error>)
    ensures !HasGsScheme(s) ==> r == Ok(File(s))
    ensures HasGsScheme(s) ==>
      match parser.parse(s)
      case Err(e) => r == Err(e)
      case Ok(url) => r == (match parser.objectId(url) case Ok(g) => Ok(Gs(g)) case Err(e) => Err(e))
    ensures r.Ok? ==> (r.value.IsFile() <==> !HasGsScheme(s))
  {
    if HasGsScheme(s) then
      var url :- parser.parse(s);
      var g :- parser.objectId(url);
      Ok(Gs(g))
    else
      Ok(File(s))
  }

  /** The two directions `cp` supports. */
  datatype Transfer = Upload(file: string, remote: GsUrl) | Download(remote: GsUrl, file: string)

  /** The direction check of `cmd`: exactly one side must be local. */
  function Direction(src: DataPath, dst: DataPath): (r: Result<Transfer, Error>)
    ensures r.Ok? <==> src.IsFile() != dst.IsFile()
    ensures src.File? && dst.File? ==>
      r.Err? && Message(r.error) == "source and destination are both located on local disk"
    ensures src.Gs? && dst.Gs? ==>
      r.Err? && Message(r.error) == "source and destination are both located on gcs"
    ensures r.Ok? && r.value.Upload? ==> src == File(r.value.file) && dst == Gs(r.value.remote)
    ensures r.Ok? && r.value.Download? ==> src == Gs(r.value.remote) && dst == File(r.value.file)
  {
    if src.IsFile() == dst.IsFile() then
      var location := if src.IsFile() then "local disk" else "gcs";
      Err(BothLocated(location))
    else
      match (src, dst)
      case (File(s), Gs(d)) => Ok(Upload(s, d))
      case (Gs(s), File(d)) => Ok(Download(s, d))
  }

  /** Classify the source, then the destination, then check the direction. */
  function Resolve<U>(srcUrl: string, destUrl: string, parser: UrlParser<U>): (r: Result<Transfer, Error>)
    ensures TryFrom(srcUrl, parser).Err? ==> r == Err(TryFrom(srcUrl, parser).error)
    ensures TryFrom(srcUrl, parser).Ok? && TryFrom(destUrl, parser).Err? ==>
      r == Err(TryFrom(destUrl, parser).error)
    ensures r.Ok? && r.value.Upload? ==> !HasGsScheme(srcUrl) && r.value.file == srcUrl && HasGsScheme(destUrl)
    ensures r.Ok? && r.value.Download? ==> HasGsScheme(srcUrl) && !HasGsScheme(destUrl) && r.value.file == destUrl
    ensures !HasGsScheme(srcUrl) && !HasGsScheme(destUrl) ==> r == Err(BothLocated("local disk"))
    // Once both strings classify, the direction check alone decides.
    ensures TryFrom(srcUrl, parser).Ok? && TryFrom(destUrl, parser).Ok? ==>
      var s := TryFrom(srcUrl, parser).value; var d := TryFrom(destUrl, parser).value;
      (r.Ok? <==> s.IsFile() != d.IsFile()) &&
      (s.Gs? && d.Gs? ==> r == Err(BothLocated("gcs"))) &&
      (s.File? && d.Gs? ==> r == Ok(Upload(srcUrl, d.url))) &&
      (s.Gs? && d.File? ==> r == Ok(Download(s.url, destUrl)))
  {
    var src :- TryFrom(srcUrl, parser);
    var dst :- TryFrom(destUrl, parser);
    Direction(src, dst)
  }

  /** The name an uploaded object gets: the destination's object name and `/`
      before the source's file name, or the file name alone. */
  function UploadObjectName(dst: GsUrl, src: string): (r: Result<string, Error>)
    ensures r.Err? <==> FileName(src).None?
    ensures r.Err? ==> Message(r.error) == "can't turn file_name into string"
    ensures r.Ok? ==> FileName(r.value) == FileName(src)
    ensures r.Ok? && dst.obj.Some? ==> r.value == dst.obj.value + "/" + FileName(src).value
    ensures r.Ok? && dst.obj.None? ==> r.value == FileName(src).value
  {
    match FileName(src)
    case None => Err(FileNameNotText)
    case Some(name) =>
      FileNameOfJoin(if dst.obj.Some? then dst.obj.value else "", name);
      var prefix := if dst.obj.Some? then dst.obj.value + "/" else "";
      assert dst.obj.Some? ==> prefix + name == dst.obj.value + "/" + name;
      assert dst.obj.None? ==> prefix + name == name;
      Ok(prefix + name)
  }

  /** Uploading `./report.csv` to `gs://bucket/incoming` names the object
      `incoming/report.csv`; to `gs://bucket` it names it `report.csv`. */
  lemma UploadFromCurrentDirectory(bucket: string, dir: string, name: string)
    requires IsNormal(name)
    ensures UploadObjectName(GsUrl(bucket, Some(dir)), "./" + name) == Ok(dir + "/" + name)
    ensures UploadObjectName(GsUrl(bucket, None), "./" + name) == Ok(name)
  {
    FileNameOfJoin(".", name);
    assert "./" + name == "." + "/" + name;
  }

  /** A request for the storage service. */
  datatype Request =
    | InsertMultipart(bucket: string, name: string, body: seq<byte>, length: nat)
    | DownloadObject(bucket: string, obj: string)

  datatype Response = Inserted | Body(bytes: seq<byte>)

  /** The foreign steps `cp` performs, any of which the surroundings may fail. */
  datatype Step = Open | Metadata | Create | Build | Execute | Copy

  /** What `cp` did to its surroundings, in order. */
  datatype Effect = Opened(path: string) | Created(path: string) | Sent(request: Request) | Wrote(path: string)

  /** The local disk, the storage service and the record of effects. */
  class World {
    var disk: map<string, seq<byte>>
    var store: map<(string, string), seq<byte>>
    var trace: seq<Effect>
    const faults: set<Step>

    constructor (disk: map<string, seq<byte>>, store: map<(string, string), seq<byte>>, faults: set<Step>)
      ensures this.disk == disk && this.store == store && this.faults == faults && trace == []
    {
      this.disk := disk;
      this.store := store;
      this.faults := faults;
      trace := [];
    }

    /** `fs::File::open`: the readable file is modelled by its content. */
    method OpenFile(path: string) returns (r: Result<seq<byte>, IoError>)
      modifies this`trace
      ensures trace == old(trace) + [Opened(path)]
      ensures r.Ok? <==> path in disk && Open !in faults
      ensures r.Ok? ==> r.value == disk[path]
      ensures r.Err? ==> r.error == if path in disk then Failed else NotFound
    {
      trace := trace + [Opened(path)];
      if path !in disk {
        r := Err(NotFound);
      } else if Open in faults {
        r := Err(Failed);
      } else {
        r := Ok(disk[path]);
      }
    }

    /** `File::metadata().len()` of a readable file. */
    function Length(content: seq<byte>): (r: Result<nat, IoError>)
      ensures r.Ok? <==> Metadata !in faults
      ensures r.Ok? ==> r.value == |content|
    {
      if Metadata in faults then Err(Failed) else Ok(|content|)
    }

    /** `fs::File::create`: creates the file, or truncates it to nothing. */
    method CreateFile(path: string) returns (r: Result<(), IoError>)
      modifies this`trace, this`disk
      ensures trace == old(trace) + [Created(path)]
      ensures r == if Create in faults then Err(Failed) else Ok(())
      ensures disk == if r.Ok? then old(disk)[path := []] else old(disk)
    {
      trace := trace + [Created(path)];
      if Create in faults {
        r := Err(Failed);
      } else {
        disk := disk[path := []];
        r := Ok(());
      }
    }

    /** `Object::insert_multipart` and `Object::download`: building a request. */
    function BuildRequest(req: Request): (r: Result<Request, Error>)
      ensures r.Ok? <==> Build !in faults
      ensures r.Ok? ==> r.value == req
    {
      if Build in faults then Err(Remote("request could not be built")) else Ok(req)
    }

    /** `util::execute`: sends the request to the storage service. */
    method Send(req: Request) returns (r: Result<Response, Error>)
      modifies this`trace, this`store
      ensures trace == old(trace) + [Sent(req)]
      ensures req.InsertMultipart? ==>
        (r.Ok? <==> Execute !in faults) &&
        (r.Ok? ==> r.value == Inserted) &&
        store == if r.Ok? then old(store)[(req.bucket, req.name) := req.body] else old(store)
      ensures req.DownloadObject? ==>
        (r.Ok? <==> Execute !in faults && (req.bucket, req.obj) in store) &&
        (r.Ok? ==> r.value == Body(store[(req.bucket, req.obj)])) &&
        store == old(store)
    {
      trace := trace + [Sent(req)];
      if Execute in faults {
        r := Err(Remote("request failed"));
      } else {
        match req
        case InsertMultipart(bucket, name, body, _) =>
          store := store[(bucket, name) := body];
          r := Ok(Inserted);
        case DownloadObject(bucket, obj) =>
          if (bucket, obj) in store {
            r := Ok(Body(store[(bucket, obj)]));
          } else {
            r := Err(Remote("object not found"));
          }
      }
    }

    /** `std::io::copy` of a response body into a created file. */
    method CopyInto(path: string, bytes: seq<byte>) returns (r: Result<(), IoError>)
      modifies this`trace, this`disk
      ensures trace == old(trace) + [Wrote(path)]
      ensures r.Ok? <==> Copy !in faults
      ensures disk == if r.Ok? then old(disk)[path := bytes] else old(disk)
    {
      trace := trace + [Wrote(path)];
      if Copy in faults {
        r := Err(Failed);
      } else {
        disk := disk[path := bytes];
        r := Ok(());
      }
    }
  }

  /** `cmd`: the whole `cp` subcommand against `world`. */
  method Cmd<U>(world: World, parser: UrlParser<U>, srcUrl: string, destUrl: string) returns (r: Result<(), Error>)
    modifies world
    // Classification and the direction check touch nothing.
    ensures var t := Resolve(srcUrl, destUrl, parser);
      t.Err? ==>
        r == Err(t.error) &&
        world.disk == old(world.disk) && world.store == old(world.store) && world.trace == old(world.trace)
    // Upload: open the source, read its length, name the object, send one insert.
    ensures var t := Resolve(srcUrl, destUrl, parser);
      t.Ok? && t.value.Upload? ==>
        var src := t.value.file; var dst := t.value.remote;
        var readable := src in old(world.disk) && Open !in world.faults;
        var named := readable && Metadata !in world.faults && FileName(src).Some?;
        var sent := named && Build !in world.faults;
        world.disk == old(world.disk) &&
        (!readable ==>
          r == Err(Context("source path", if src in old(world.disk) then Failed else NotFound))) &&
        (readable && Metadata in world.faults ==> r == Err(Io(Failed))) &&
        (readable && Metadata !in world.faults && FileName(src).None? ==> r == Err(FileNameNotText)) &&
        (named && Build in world.faults ==> r.Err?) &&
        (!sent ==> world.trace == old(world.trace) + [Opened(src)] && world.store == old(world.store)) &&
        (sent ==>
          var content := old(world.disk)[src];
          var name := UploadObjectName(dst, src).value;
          world.trace == old(world.trace) + [Opened(src), Sent(InsertMultipart(dst.bucket, name, content, |content|))] &&
          (r.Ok? <==> Execute !in world.faults) &&
          world.store == if r.Ok? then old(world.store)[(dst.bucket, name) := content] else old(world.store))
    // Download: create the destination first, then require an object name,
    // send one download and copy its body into the file.
    ensures var t := Resolve(srcUrl, destUrl, parser);
      t.Ok? && t.value.Download? ==>
        var src := t.value.remote; var dst := t.value.file;
        var created := Create !in world.faults;
        var sent := created && src.obj.Some? && Build !in world.faults;
        var fetched := sent && Execute !in world.faults && (src.bucket, src.obj.value) in old(world.store);
        world.store == old(world.store) &&
        (!created ==>
          r == Err(Context("destination path", Failed)) &&
          world.disk == old(world.disk) && world.trace == old(world.trace) + [Created(dst)]) &&
        (created && src.obj.None? ==>
          r == Err(MissingObjectName) &&
          world.disk == old(world.disk)[dst := []] && world.trace == old(world.trace) + [Created(dst)]) &&
        (created && src.obj.Some? && Build in world.faults ==>
          r.Err? && world.disk == old(world.disk)[dst := []] && world.trace == old(world.trace) + [Created(dst)]) &&
        (sent ==>
          var req := DownloadObject(src.bucket, src.obj.value);
          (!fetched ==>
            r.Err? && world.disk == old(world.disk)[dst := []] &&
            world.trace == old(world.trace) + [Created(dst), Sent(req)]) &&
          (fetched ==>
            world.trace == old(world.trace) + [Created(dst), Sent(req), Wrote(dst)] &&
            (r.Ok? <==> Copy !in world.faults) &&
            world.disk == old(world.disk)[dst := if r.Ok? then old(world.store)[(src.bucket, src.obj.value)] else []]))
  {
    var transfer :- Resolve(srcUrl, destUrl, parser);
    match transfer
    case Upload(src, dst) =>
      var readable := world.OpenFile(src);
      if readable.Err? {
        return Err(Context("source path", readable.error));
      }
      var content := readable.value;
      var length := world.Length(content);
      if length.Err? {
        return Err(Io(length.error));
      }
      var name :- UploadObjectName(dst, src);
      var insert :- world.BuildRequest(InsertMultipart(dst.bucket, name, content, length.value));
      var _ :- world.Send(insert);
      r := Ok(());
    case Download(src, dst) =>
      var created := world.CreateFile(dst);
      if created.Err? {
        return Err(Context("destination path", created.error));
      }
      if src.obj.None? {
        return Err(MissingObjectName);
      }
      var download :- world.BuildRequest(DownloadObject(src.bucket, src.obj.value));
      var response :- world.Send(download);
      var copied := world.CopyInto(dst, response.bytes);
      if copied.Err? {
        return Err(Io(copied.error));
      }
      r := Ok(());
  }

  /** With no failing step, uploading a file to a bucket locator and then
      downloading the object it became into another local file gives that
      file the uploaded bytes, and the object keeps them. */
  method UploadThenDownload<U>(world: World, parser: UrlParser<U>, file: string, bucketUrl: string, objectUrl: string, copy: string)
    returns (up: Result<(), Error>, down: Result<(), Error>)
    requires world.faults == {}
    requires file in world.disk && FileName(file).Some?
    requires !HasGsScheme(file) && !HasGsScheme(copy)
    requires TryFrom(bucketUrl, parser).Ok? && TryFrom(bucketUrl, parser).value.Gs?
    requires var g := TryFrom(bucketUrl, parser).value.url;
      TryFrom(objectUrl, parser) == Ok(Gs(GsUrl(g.bucket, Some(UploadObjectName(g, file).value))))
    modifies world
    ensures up.Ok? && down.Ok?
    ensures world.disk == old(world.disk)[copy := old(world.disk)[file]]
    ensures var g := TryFrom(bucketUrl, parser).value.url;
      world.store == old(world.store)[(g.bucket, UploadObjectName(g, file).value) := old(world.disk)[file]]
  {
    var g := TryFrom(bucketUrl, parser).value.url;
    assert Resolve(file, bucketUrl, parser) == Ok(Upload(file, g));
    up := Cmd(world, parser, file, bucketUrl);
    var name := UploadObjectName(g, file).value;
    assert Resolve(objectUrl, copy, parser) == Ok(Download(GsUrl(g.bucket, Some(name)), copy));
    down := Cmd(world, parser, objectUrl, copy);
  }
}
