/** `src/app/api/gallery-images/route.js`: a provider's gallery. The paths of this route are not
    behind the access gate, so the `x-service-provider-id` header it reads is whatever the
    caller sent. */
module Gallery {
  import opened Common
  import opened Rows
  import opened Helpers
  import opened Tables

  /** An image as both GET and POST return it: the row with its public URL. */
  datatype ImageView = ImageView(id: int, filename: Option<string>, url: Option<string>, createdAt: int)

  function ToView(g: GalleryImage): (v: ImageView)
  {
    ImageView(g.id, g.filename, GetImageUrl(g.filename), g.createdAt)
  }

  const ProviderAuthRequired: string := "Service provider authentication required."
  const NoImageFile: string := "No image file provided."

  function OfProvider(providerId: int): GalleryImage -> bool
  {
    (g: GalleryImage) => g.providerId == providerId
  }

  /** `orderBy: { created_at: 'desc' }`, as an ascending sort on the negated time. */
  function NewestFirst(g: GalleryImage): int { -g.createdAt }

  /** The rows GET reads: that provider's images, newest first. */
  function GalleryRows(images: seq<GalleryImage>, providerId: int): (rows: seq<GalleryImage>)
    ensures forall g :: multiset(rows)[g] == if g.providerId == providerId then multiset(images)[g] else 0
    ensures forall i, j | 0 <= i < j < |rows| :: rows[i].createdAt >= rows[j].createdAt
  {
    var mine := Filter(images, OfProvider(providerId));
    FilterCount(images, OfProvider(providerId));
    SortByCorrect(mine, NewestFirst);
    var rows := SortBy(mine, NewestFirst);
    assert forall i, j | 0 <= i < j < |rows| :: NewestFirst(rows[i]) <= NewestFirst(rows[j]);
    rows
  }

  /** GET /api/gallery-images: 401 without the header; otherwise the provider's images, newest
      first, each carrying `url = getImageUrl(filename)`. */
  function ListGallery(images: seq<GalleryImage>, providerHeader: Option<int>): (r: Reply<seq<ImageView>>)
    ensures providerHeader.None? <==> r == Failure(401, ProviderAuthRequired)
    ensures r.Success? <==> providerHeader.Some?
    ensures r.Success? ==> r.status == 200
    ensures r.Success? ==>
      var rows := GalleryRows(images, providerHeader.value);
      && |r.value| == |rows|
      && (forall i | 0 <= i < |rows| :: r.value[i].url == GetImageUrl(rows[i].filename)
            && r.value[i].id == rows[i].id && r.value[i].filename == rows[i].filename
            && r.value[i].createdAt == rows[i].createdAt)
      && (forall i, j | 0 <= i < j < |r.value| :: r.value[i].createdAt >= r.value[j].createdAt)
  {
    if providerHeader.None? then Failure(401, ProviderAuthRequired)
    else
      var rows := GalleryRows(images, providerHeader.value);
      Success(200, seq(|rows|, i requires 0 <= i < |rows| => ToView(rows[i])))
  }

  /** The multipart form of POST, with the header; `image` is the `image` part, a file or a text. */
  datatype Upload = Upload(providerId: Option<int>, image: Option<FormPart>)

  /** POST /api/gallery-images. `timestamp` and `random` name the file; `createdAt` is the
      database clock; `dbError` is the text of the error the database raises when it refuses the
      insert, which the catch-all reply forwards. */
  method PostGalleryImage(db: Store, req: Upload, timestamp: nat, random: string, createdAt: int, dbError: string)
    returns (resp: Reply<ImageView>)
    requires db.Valid()
    modifies db`images, db`nextImageId
    ensures db.Valid()
    ensures req.providerId.None? ==> resp == Failure(401, ProviderAuthRequired)
    ensures req.providerId.Some? && !PartGiven(req.image) ==> resp == Failure(400, NoImageFile)
    ensures (req.providerId.Some? && PartGiven(req.image)
             && SaveImage(req.image, timestamp, random).Invalid?) ==>
      resp == Failure(400, SaveImage(req.image, timestamp, random).message)
    ensures (req.providerId.Some? && PartGiven(req.image) && !SaveImage(req.image, timestamp, random).Invalid?
             && !IsProvider(db.providers, req.providerId.value)) ==>
      resp == Failure(500, dbError)
    ensures resp.Success? <==>
      req.providerId.Some? && PartGiven(req.image) && !SaveImage(req.image, timestamp, random).Invalid?
      && IsProvider(db.providers, req.providerId.value)
    ensures resp.Success? ==>
      var row := GalleryImage(old(db.nextImageId), req.providerId.value,
                              StoredName(SaveImage(req.image, timestamp, random)), createdAt);
      && resp.status == 201 && resp.value == ToView(row)
      && db.images == old(db.images) + [row] && db.nextImageId == old(db.nextImageId) + 1
    ensures resp.Success? && req.image.value.FilePart? && req.image.value.size == 0 ==> resp.value.filename.None? && resp.value.url.None?
    ensures resp.Failure? ==> db.images == old(db.images) && db.nextImageId == old(db.nextImageId)
  {
    if req.providerId.None? {
      return Failure(401, ProviderAuthRequired);
    }
    if !PartGiven(req.image) {
      return Failure(400, NoImageFile);
    }
    var saved := SaveImage(req.image, timestamp, random);
    if saved.Invalid? {
      return Failure(400, saved.message);
    }
    var filename := StoredName(saved);
    var created := db.CreateImage(req.providerId.value, filename, createdAt);
    if created.None? {
      return Failure(500, dbError);
    }
    return Success(201, ToView(created.value));
  }
}
