/** The form for adding a tool (app/routes/tool/manage/new.tsx): the subcategory lookup its loader
    builds, the category picker that reads it, and the multipart action that uploads the image,
    validates the fields and creates the tool. */
module RouteToolManageNew {
  import opened Wrappers
  import opened Entities
  import opened Seqs
  import opened Db
  import opened Http
  import opened ToolsServer

  // ---------------------------------------------------------------- loader

  /** The subcategories of category `categoryId`, in reference-data order. */
  function InCategory(categoryId: string): SubCategory -> bool {
    (s: SubCategory) => s.categoryId == categoryId
  }

  function Bucket(subs: seq<SubCategory>, categoryId: string): seq<SubCategory> {
    Filter(subs, InCategory(categoryId))
  }

  /** The categories that have at least one subcategory. */
  function CategoryIds(subs: seq<SubCategory>): set<string> {
    set s | s in subs :: s.categoryId
  }

  /** `lookup` has a key for each category with subcategories, holding exactly those subcategories
      in their original order. */
  ghost predicate IsLookupOf(lookup: map<string, seq<SubCategory>>, subs: seq<SubCategory>) {
    && lookup.Keys == CategoryIds(subs)
    && forall k :: k in lookup ==> lookup[k] == Bucket(subs, k)
  }

  datatype LoaderData = LoaderData(categories: seq<Category>, subCategoriesLookup: map<string, seq<SubCategory>>)

  /** Filtering one more element: it is kept at the end exactly when it matches. */
  lemma BucketSnoc(subs: seq<SubCategory>, s: SubCategory, k: string)
    ensures Bucket(subs + [s], k) == if s.categoryId == k then Bucket(subs, k) + [s] else Bucket(subs, k)
  {
    FilterConcat(subs, [s], InCategory(k));
    assert [s][1..] == [];
  }

  /** The reduce as a function: the lookup after grouping `subs` one subcategory at a time. */
  function Grouped(subs: seq<SubCategory>): map<string, seq<SubCategory>> {
    if subs == [] then map[]
    else
      var lookup := Grouped(subs[..|subs| - 1]);
      var s := subs[|subs| - 1];
      lookup[s.categoryId := (if s.categoryId in lookup then lookup[s.categoryId] else []) + [s]]
  }

  /** The grouping yields the lookup of its input. */
  lemma {:induction false} GroupedIsLookup(subs: seq<SubCategory>)
    ensures IsLookupOf(Grouped(subs), subs)
  {
    if subs != [] {
      var init := subs[..|subs| - 1];
      GroupedIsLookup(init);
      AppendKeepsLookup(Grouped(init), init, subs[|subs| - 1]);
      assert init + [subs[|subs| - 1]] == subs;
    }
  }

  /** The loader: the categories as given, and the subcategories grouped by category by one pass
      that appends each subcategory to its category's list, starting that list when it is missing. */
  method Loader(categories: seq<Category>, subCategories: seq<SubCategory>) returns (r: LoaderData)
    ensures r.categories == categories
    ensures r.subCategoriesLookup == Grouped(subCategories)
    ensures IsLookupOf(r.subCategoriesLookup, subCategories)
  {
    var lookup: map<string, seq<SubCategory>> := map[];
    var i := 0;
    while i < |subCategories|
      invariant 0 <= i <= |subCategories|
      invariant lookup == Grouped(subCategories[..i])
    {
      var s := subCategories[i];
      var bucket := if s.categoryId in lookup then lookup[s.categoryId] else [];
      lookup := lookup[s.categoryId := bucket + [s]];
      assert subCategories[..i + 1][..i] == subCategories[..i];
      i := i + 1;
    }
    assert subCategories[..i] == subCategories;
    GroupedIsLookup(subCategories);
    r := LoaderData(categories, lookup);
  }

  /** One step of the grouping: appending `s` to its category's list (started empty when missing)
      turns the lookup of `subs` into the lookup of `subs + [s]`. */
  lemma AppendKeepsLookup(lookup: map<string, seq<SubCategory>>, subs: seq<SubCategory>, s: SubCategory)
    requires IsLookupOf(lookup, subs)
    ensures var bucket := if s.categoryId in lookup then lookup[s.categoryId] else [];
      IsLookupOf(lookup[s.categoryId := bucket + [s]], subs + [s])
  {
    var bucket := if s.categoryId in lookup then lookup[s.categoryId] else [];
    var next := lookup[s.categoryId := bucket + [s]];
    assert CategoryIds(subs + [s]) == CategoryIds(subs) + {s.categoryId};
    forall k | k in next ensures next[k] == Bucket(subs + [s], k) {
      BucketSnoc(subs, s, k);
      if k == s.categoryId && k !in lookup {
        NoBucketOutsideCategories(subs, k);
      }
    }
  }

  /** A category with no subcategory has an empty list. */
  lemma NoBucketOutsideCategories(subs: seq<SubCategory>, k: string)
    requires k !in CategoryIds(subs)
    ensures Bucket(subs, k) == []
  {
    forall s | s in subs ensures !InCategory(k)(s) {
      assert s.categoryId in CategoryIds(subs);
    }
  }

  /** The total size of the lists of `keys` in `lookup`. */
  function LookupSize(lookup: map<string, seq<SubCategory>>, keys: seq<string>): nat
    requires forall k :: k in keys ==> k in lookup
  {
    if keys == [] then 0 else |lookup[keys[0]]| + LookupSize(lookup, keys[1..])
  }

  /** The total size of the buckets of `keys`. */
  function BucketSize(subs: seq<SubCategory>, keys: seq<string>): nat {
    if keys == [] then 0 else |Bucket(subs, keys[0])| + BucketSize(subs, keys[1..])
  }

  /** How often `k` occurs in `keys`. */
  function Occurrences(keys: seq<string>, k: string): nat {
    if keys == [] then 0 else (if keys[0] == k then 1 else 0) + Occurrences(keys[1..], k)
  }

  lemma {:induction false} OccursOnce(keys: seq<string>, k: string)
    requires k in keys
    requires forall i, j :: 0 <= i < j < |keys| ==> keys[i] != keys[j]
    ensures Occurrences(keys, k) == 1
  {
    if keys[0] == k {
      NotOccurring(keys[1..], k);
    } else {
      OccursOnce(keys[1..], k);
    }
  }

  lemma {:induction false} NotOccurring(keys: seq<string>, k: string)
    requires k !in keys
    ensures Occurrences(keys, k) == 0
  {
    if keys != [] {
      NotOccurring(keys[1..], k);
    }
  }

  lemma {:induction false} BucketSizeOfNone(keys: seq<string>)
    ensures BucketSize([], keys) == 0
  {
    if keys != [] {
      BucketSizeOfNone(keys[1..]);
    }
  }

  /** Prepending `s` adds one to the bucket of each occurrence of its category among `keys`. */
  lemma {:induction false} BucketSizeCons(s: SubCategory, rest: seq<SubCategory>, keys: seq<string>)
    ensures BucketSize([s] + rest, keys) == Occurrences(keys, s.categoryId) + BucketSize(rest, keys)
  {
    if keys != [] {
      BucketSizeCons(s, rest, keys[1..]);
      assert ([s] + rest)[1..] == rest;
    }
  }

  /** Over any list of distinct categories covering all subcategories, the buckets together hold as
      many entries as there are subcategories: each lands in exactly one bucket. */
  lemma {:induction false} BucketSizesSum(subs: seq<SubCategory>, keys: seq<string>)
    requires forall i, j :: 0 <= i < j < |keys| ==> keys[i] != keys[j]
    requires forall s :: s in subs ==> s.categoryId in keys
    ensures BucketSize(subs, keys) == |subs|
  {
    if subs == [] {
      BucketSizeOfNone(keys);
    } else {
      BucketSizesSum(subs[1..], keys);
      OccursOnce(keys, subs[0].categoryId);
      BucketSizeCons(subs[0], subs[1..], keys);
      assert [subs[0]] + subs[1..] == subs;
    }
  }

  /** The grouped lists' sizes sum to the number of subcategories, whatever order the keys are taken in. */
  lemma {:induction false} LookupSizesSum(lookup: map<string, seq<SubCategory>>, subs: seq<SubCategory>, keys: seq<string>)
    requires IsLookupOf(lookup, subs)
    requires forall i, j :: 0 <= i < j < |keys| ==> keys[i] != keys[j]
    requires forall k :: k in keys <==> k in lookup
    ensures LookupSize(lookup, keys) == |subs|
  {
    forall s | s in subs ensures s.categoryId in keys {
      assert s.categoryId in CategoryIds(subs);
    }
    BucketSizesSum(subs, keys);
    LookupIsBuckets(lookup, subs, keys);
  }

  lemma {:induction false} LookupIsBuckets(lookup: map<string, seq<SubCategory>>, subs: seq<SubCategory>, keys: seq<string>)
    requires IsLookupOf(lookup, subs)
    requires forall k :: k in keys ==> k in lookup
    ensures LookupSize(lookup, keys) == BucketSize(subs, keys)
  {
    if keys != [] {
      LookupIsBuckets(lookup, subs, keys[1..]);
    }
  }

  /** `subCategoriesLookup[category] ?? []`: the choices shown after picking `category`. */
  function OnCategoryChange(lookup: map<string, seq<SubCategory>>, category: string): seq<SubCategory> {
    if category in lookup then lookup[category] else []
  }

  /** Whatever category is picked, the picker offers exactly its subcategories, in order, and
      nothing for a category without any. */
  lemma PickerShowsCategory(lookup: map<string, seq<SubCategory>>, subs: seq<SubCategory>, category: string)
    requires IsLookupOf(lookup, subs)
    ensures OnCategoryChange(lookup, category) == Bucket(subs, category)
    ensures forall s :: s in OnCategoryChange(lookup, category) <==> s in subs && s.categoryId == category
  {
    if category !in lookup {
      NoBucketOutsideCategories(subs, category);
    }
  }

  // ---------------------------------------------------------------- action

  /** The file part of the multipart body: its field name, content, file name and type. */
  datatype FilePart = FilePart(name: string, stream: seq<bv8>, filename: string, mimetype: string)

  /** What the upload handler answers for the file part, as `uploadToolImage` decides it from the
      environment and the storage service's outcome; None when the body has no file part. */
  function HandlerAnswer(env: Env, file: Option<FilePart>, outcome: UploadOutcome): Option<UploadResult> {
    if file.None? then None
    else if !Truthy(Some(file.value.filename)) then Some(NoUpload)
    else if !EnvReady(env) then Some(ConfigurationError)
    else if outcome.Responded? && IsSuccess(outcome.response) then Some(Uploaded(outcome.response.location.value))
    else Some(ImageUploadError)
  }

  /** Whether the handler sends an image to storage. */
  predicate UploadAttempted(env: Env, file: Option<FilePart>) {
    file.Some? && Truthy(Some(file.value.filename)) && EnvReady(env)
  }

  /** The form data the parser resolves to: the text fields, plus the file field holding the handler's
      location when the handler gave one (a field already present keeps its first value), or None when
      the handler threw. */
  function ParsedForm(fields: map<string, string>, file: Option<FilePart>, answer: Option<UploadResult>): (r: Option<FormData>)
    ensures r.None? <==> answer.Some? && (answer.value.ConfigurationError? || answer.value.ImageUploadError?)
    ensures r.Some? ==> forall k :: k in fields ==> k in r.value && r.value[k] == Text(fields[k])
    ensures r.Some? ==> forall k :: k in r.value && k !in fields ==>
      && file.Some? && k == file.value.name
      && answer.Some? && answer.value.Uploaded? && r.value[k] == Text(answer.value.location)
  {
    var form := map k | k in fields :: Text(fields[k]);
    match answer
    case None => Some(form)
    case Some(NoUpload) => Some(form)
    case Some(Uploaded(location)) =>
      if file.None? || file.value.name in form then Some(form) else Some(form[file.value.name := Text(location)])
    case Some(_) => None
  }

  /** Reads the multipart body: text fields are kept as they are and the file part, if any, is handed to
      `uploadToolImage`; an exception from the handler rejects the whole parse. */
  method ParseMultipart(storage: ObjectStorage, env: Env, userId: Id, fields: map<string, string>,
                        file: Option<FilePart>, outcome: UploadOutcome) returns (r: Option<FormData>)
    modifies storage
    ensures r == ParsedForm(fields, file, HandlerAnswer(env, file, outcome))
    ensures !UploadAttempted(env, file) ==> storage.requests == old(storage.requests)
    ensures UploadAttempted(env, file) ==>
      exists n :: 0 <= n <= 1000 &&
        storage.requests == old(storage.requests) +
          [PutRequest(env.bucketName.value, StorageKey(userId, n, file.value.filename), file.value.mimetype, file.value.stream)]
  {
    var answer: Option<UploadResult> := None;
    if file.Some? {
      var u := UploadToolImage(storage, env, Some(file.value.stream), Some(file.value.filename),
                               file.value.mimetype, userId, outcome);
      answer := Some(u);
    }
    r := ParsedForm(fields, file, answer);
  }

  /** The first failing check among the three required fields, in the order the action makes them. */
  function FieldErrorOf(form: FormData): (r: Option<ErrorBody>)
    ensures r.None? <==>
      IsNonEmptyText(Get(form, "name")) && IsNonEmptyText(Get(form, "description")) &&
      IsNonEmptyText(Get(form, "subCategory"))
    ensures r == Some(FieldError("name", "Name is required")) <==> !IsNonEmptyText(Get(form, "name"))
    ensures r == Some(FieldError("description", "Description is required")) <==>
      IsNonEmptyText(Get(form, "name")) && !IsNonEmptyText(Get(form, "description"))
    ensures r == Some(FieldError("subCategory", "Subcategory is required")) <==>
      IsNonEmptyText(Get(form, "name")) && IsNonEmptyText(Get(form, "description")) &&
      !IsNonEmptyText(Get(form, "subCategory"))
  {
    if !IsNonEmptyText(Get(form, "name")) then Some(FieldError("name", "Name is required"))
    else if !IsNonEmptyText(Get(form, "description")) then Some(FieldError("description", "Description is required"))
    else if !IsNonEmptyText(Get(form, "subCategory")) then Some(FieldError("subCategory", "Subcategory is required"))
    else None
  }

  /** `imageUrl?.toString() ?? null`: a text value as it is, a file as its default string form. */
  function ImageUrlOf(v: Option<FormValue>): (r: Option<string>)
    ensures r.None? <==> v.None?
    ensures v.Some? && v.value.Text? ==> r == Some(v.value.text)
  {
    match v
    case None => None
    case Some(Text(s)) => Some(s)
    case Some(FileValue) => Some("[object File]")
  }

  const ToolPrefix: string := "/tool/"

  /** The action for the signed-in `userId`: a failed upload is answered with 500, a missing field with
      400 and the first failing field's message, and otherwise the tool is stored with the uploaded
      image's location and the browser is sent to its page. The image is uploaded before the fields are
      checked, so a rejected form can still leave an image in storage. */
  method NewToolAction(db: Db, storage: ObjectStorage, env: Env, userId: Id, fields: map<string, string>,
                       file: Option<FilePart>, outcome: UploadOutcome, now: Time) returns (resp: Response)
    requires db.Valid()
    modifies db, storage
    ensures db.Valid()
    ensures !UploadAttempted(env, file) ==> storage.requests == old(storage.requests)
    ensures UploadAttempted(env, file) ==>
      exists n :: 0 <= n <= 1000 &&
        storage.requests == old(storage.requests) +
          [PutRequest(env.bucketName.value, StorageKey(userId, n, file.value.filename), file.value.mimetype, file.value.stream)]
    ensures var form := ParsedForm(fields, file, HandlerAnswer(env, file, outcome));
      && (form.None? ==> resp == Json(500, UploadError) && unchanged(db))
      && (form.Some? && FieldErrorOf(form.value).Some? ==>
            resp == Json(400, FieldErrorOf(form.value).value) && unchanged(db))
      && (form.Some? && FieldErrorOf(form.value).None? ==>
            var t := Tool(old(db.nextId), form.value["name"].text, form.value["description"].text,
                          form.value["subCategory"].text, userId, ImageUrlOf(Get(form.value, "image")), now);
            && resp == Redirect(PathTo(ToolPrefix, t.id))
            && db.tools == old(db.tools) + [t]
            && GetTool(db, t.id) == Some(t)
            && db.users == old(db.users) && db.communities == old(db.communities)
            && db.members == old(db.members) && db.invites == old(db.invites)
            && db.passwords == old(db.passwords))
  {
    var form := ParseMultipart(storage, env, userId, fields, file, outcome);
    if form.None? {
      return Json(500, UploadError);
    }
    var error := FieldErrorOf(form.value);
    if error.Some? {
      return Json(400, error.value);
    }
    var f := form.value;
    var t := CreateTool(db, f["name"].text, f["description"].text, f["subCategory"].text, userId,
                        ImageUrlOf(Get(f, "image")), now);
    resp := Redirect(PathTo(ToolPrefix, t.id));
  }

  /** When the image field is the file part and the form has no text field of that name, a successful
      upload's location is what the new tool records. */
  lemma UploadedLocationIsImageUrl(fields: map<string, string>, file: FilePart, env: Env, location: string)
    requires file.name == "image" && "image" !in fields
    requires UploadAttempted(env, Some(file))
    ensures var outcome := Responded(UploadResponse(Some(location)));
      var form := ParsedForm(fields, Some(file), HandlerAnswer(env, Some(file), outcome));
      form.Some? && ImageUrlOf(Get(form.value, "image")) == Some(location)
  {
  }

  /** Without a file part, or with one the browser sent without a file name, the new tool has no image. */
  lemma NoFileNoImage(fields: map<string, string>, file: Option<FilePart>, env: Env, outcome: UploadOutcome)
    requires "image" !in fields
    requires file.None? || file.value.filename == ""
    ensures var form := ParsedForm(fields, file, HandlerAnswer(env, file, outcome));
      form.Some? && ImageUrlOf(Get(form.value, "image")).None?
  {
  }
}
