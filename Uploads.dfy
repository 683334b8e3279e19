/**
 * Storing uploaded images: the checks every upload passes, the file-name
 * schemes (`user_<id>`, `food_<id>`, `food_temp_<uuid>`, each followed by the
 * original extension), pruning of a user's or donation's older files, deletion
 * by URL and the rename of a temporary food image. Each directory is the set
 * of file names it holds; contents are not modelled.
 */
module Uploads {
  import opened Common
  import opened Text

  /** An uploaded file as the service sees it. */
  datatype Upload = Upload(size: int, contentType: Option<string>, originalName: Option<string>)

  datatype UploadError = EmptyFile | NotAnImage | TooLarge

  const MaxSize: int := 5 * 1024 * 1024

  /** The checks both save methods run first, in order: empty, not `image/...`, over 5 MB. */
  function CheckUpload(f: Upload): (e: Option<UploadError>)
    ensures e.None? <==> f.size != 0 && f.contentType.Some? && StartsWith(f.contentType.value, "image/") && f.size <= MaxSize
    ensures f.size == 0 ==> e == Some(EmptyFile)
  {
    if f.size == 0 then Some(EmptyFile)
    else if f.contentType.None? || !StartsWith(f.contentType.value, "image/") then Some(NotAnImage)
    else if f.size > MaxSize then Some(TooLarge)
    else None
  }

  /** The suffix from the last `.` of the name, dot included; empty without a name or a dot. */
  function Extension(name: Option<string>): (ext: string)
    ensures name.None? || '.' !in name.value ==> ext == ""
    ensures name.Some? && '.' in name.value ==>
      |ext| >= 1 && ext[0] == '.' && '.' !in ext[1..] && |ext| <= |name.value| &&
      name.value == name.value[..|name.value| - |ext|] + ext
  {
    if name.None? then ""
    else match LastIndexOf(name.value, '.')
      case None => ""
      case Some(i) =>
        assert name.value == name.value[..i] + name.value[i..];
        name.value[i..]
  }

  function AvatarPrefix(userId: int): string { "user_" + IntToString(userId) }
  function FoodPrefix(donationId: int): string { "food_" + IntToString(donationId) }

  /** The stored name of a food image: fixed per donation, or temporary with a random UUID. */
  function FoodName(donationId: Option<int>, uuid: string, ext: string): (name: string)
    ensures donationId.Some? ==> name == FoodPrefix(donationId.value) + ext
    ensures donationId.None? ==> name == "food_temp_" + uuid + ext && StartsWith(name, "food_temp_")
  {
    if donationId.Some? then FoodPrefix(donationId.value) + ext else "food_temp_" + uuid + ext
  }

  /**
   * The files a save deletes: every name starting with `prefix` other than the
   * new file. The prefix test is textual, so `food_1` also matches `food_12.png`.
   */
  function Stale(dir: set<string>, prefix: string, keep: string): (s: set<string>)
    ensures s <= dir && keep !in s
    ensures forall n :: n in s <==> n in dir && StartsWith(n, prefix) && n != keep
  {
    set n | n in dir && (StartsWith(n, prefix + "_") || (StartsWith(n, prefix) && n != keep)) && n != keep
  }

  /** The URL guard of the delete and rename methods: present, non-empty, under `/uploads/`. */
  predicate UnderUploads(url: Option<string>) {
    url.Some? && url.value != "" && StartsWith(url.value, "/uploads/")
  }

  /** The last path segment of a URL. */
  function FileOf(url: string): (name: string)
    ensures '/' !in name
  {
    AfterLast(url, '/')
  }

  /** The avatar directory and the food-image directory. */
  class UploadDirs {
    var avatars: set<string>
    var foods: set<string>

    constructor (avatars: set<string>, foods: set<string>)
      ensures this.avatars == avatars && this.foods == foods
    {
      this.avatars := avatars;
      this.foods := foods;
    }

    /** Deletes from the avatar directory, one listed file at a time, every stale name. */
    method PruneAvatars(prefix: string, keep: string)
      modifies this
      ensures avatars == old(avatars) - Stale(old(avatars), prefix, keep)
      ensures foods == old(foods)
    {
      var listed := Stale(avatars, prefix, keep);
      var todo := listed;
      while todo != {}
        invariant todo <= listed
        invariant avatars == old(avatars) - (listed - todo)
        invariant foods == old(foods)
        decreases |todo|
      {
        var n :| n in todo;
        avatars := avatars - {n};
        todo := todo - {n};
      }
    }

    method PruneFoods(prefix: string, keep: string)
      modifies this
      ensures foods == old(foods) - Stale(old(foods), prefix, keep)
      ensures avatars == old(avatars)
    {
      var listed := Stale(foods, prefix, keep);
      var todo := listed;
      while todo != {}
        invariant todo <= listed
        invariant foods == old(foods) - (listed - todo)
        invariant avatars == old(avatars)
        decreases |todo|
      {
        var n :| n in todo;
        foods := foods - {n};
        todo := todo - {n};
      }
    }

    /**
     * `saveAvatar`: after the checks, the file is `user_<id><ext>`, older files
     * with that prefix are deleted, and the URL under `/uploads/avatars/` is returned.
     */
    method SaveAvatar(f: Upload, userId: int) returns (r: Result<string, UploadError>)
      modifies this
      ensures CheckUpload(f).Some? ==>
        r == Failure(CheckUpload(f).value) && avatars == old(avatars) && foods == old(foods)
      ensures CheckUpload(f).None? ==>
        var name := AvatarPrefix(userId) + Extension(f.originalName);
        r == Success("/uploads/avatars/" + name) &&
        avatars == old(avatars) - Stale(old(avatars), AvatarPrefix(userId), name) + {name} &&
        foods == old(foods)
      ensures CheckUpload(f).None? ==> forall n :: n in avatars && StartsWith(n, AvatarPrefix(userId)) ==>
        n == AvatarPrefix(userId) + Extension(f.originalName)
    {
      var err := CheckUpload(f);
      if err.Some? {
        return Failure(err.value);
      }
      var name := AvatarPrefix(userId) + Extension(f.originalName);
      PruneAvatars(AvatarPrefix(userId), name);
      avatars := avatars + {name};
      r := Success("/uploads/avatars/" + name);
    }

    /**
     * `saveFoodImage`: with a donation id the file is `food_<id><ext>` and older
     * files with that prefix are deleted; without one it is a new temporary name.
     */
    method SaveFoodImage(f: Upload, donationId: Option<int>, uuid: string) returns (r: Result<string, UploadError>)
      modifies this
      ensures CheckUpload(f).Some? ==>
        r == Failure(CheckUpload(f).value) && avatars == old(avatars) && foods == old(foods)
      ensures CheckUpload(f).None? ==>
        var name := FoodName(donationId, uuid, Extension(f.originalName));
        r == Success("/uploads/alimentos/" + name) && avatars == old(avatars) &&
        (donationId.Some? ==> foods == old(foods) - Stale(old(foods), FoodPrefix(donationId.value), name) + {name}) &&
        (donationId.None? ==> foods == old(foods) + {name})
      ensures CheckUpload(f).None? && donationId.Some? ==> forall n :: n in foods && StartsWith(n, FoodPrefix(donationId.value)) ==>
        n == FoodName(donationId, uuid, Extension(f.originalName))
    {
      var err := CheckUpload(f);
      if err.Some? {
        return Failure(err.value);
      }
      var name := FoodName(donationId, uuid, Extension(f.originalName));
      if donationId.Some? {
        PruneFoods(FoodPrefix(donationId.value), name);
      }
      foods := foods + {name};
      r := Success("/uploads/alimentos/" + name);
    }

    /** `deleteAvatar`: removes the URL's last segment from the avatar directory, if the URL passes the guard. */
    method DeleteAvatar(url: Option<string>)
      modifies this
      ensures !UnderUploads(url) ==> avatars == old(avatars)
      ensures UnderUploads(url) ==> avatars == old(avatars) - {FileOf(url.value)}
      ensures foods == old(foods)
    {
      if !UnderUploads(url) {
        return;
      }
      avatars := avatars - {FileOf(url.value)};
    }

    /** `deleteFoodImage`: the same on the food-image directory. */
    method DeleteFoodImage(url: Option<string>)
      modifies this
      ensures !UnderUploads(url) ==> foods == old(foods)
      ensures UnderUploads(url) ==> foods == old(foods) - {FileOf(url.value)}
      ensures avatars == old(avatars)
    {
      if !UnderUploads(url) {
        return;
      }
      foods := foods - {FileOf(url.value)};
    }

    /**
     * `renameFoodImage`: a temporary food image that exists becomes
     * `food_<id><ext>` (replacing any file of that name) and its new URL is
     * returned; in every other case the URL comes back unchanged and nothing moves.
     */
    method RenameFoodImage(url: Option<string>, donationId: int) returns (r: Option<string>)
      modifies this
      ensures avatars == old(avatars)
      ensures !RenameApplies(url, old(foods)) ==> r == url && foods == old(foods)
      ensures RenameApplies(url, old(foods)) ==>
        var temp := FileOf(url.value);
        var name := FoodPrefix(donationId) + Extension(Some(temp));
        r == Some("/uploads/alimentos/" + name) && foods == old(foods) - {temp} + {name}
    {
      if !UnderUploads(url) {
        return url;
      }
      var temp := FileOf(url.value);
      if !StartsWith(temp, "food_temp_") {
        return url;
      }
      var name := FoodPrefix(donationId) + Extension(Some(temp));
      if temp in foods {
        foods := foods - {temp} + {name};
        return Some("/uploads/alimentos/" + name);
      }
      return url;
    }
  }

  /** When `renameFoodImage` moves a file. */
  predicate RenameApplies(url: Option<string>, foods: set<string>) {
    UnderUploads(url) && StartsWith(FileOf(url.value), "food_temp_") && FileOf(url.value) in foods
  }

  /** A renamed image no longer has a temporary name. */
  lemma RenamedIsNotTemporary(donationId: int, ext: string)
    ensures !StartsWith(FoodPrefix(donationId) + ext, "food_temp_")
  {
    var s := FoodPrefix(donationId) + ext;
    assert s[5] == IntToString(donationId)[0];
    assert s[5] != 't';
  }

  /** Saving the image of donation 1 deletes the image of donation 12: the prune is a bare prefix match. */
  lemma PruneReachesOtherDonation()
    ensures "food_12.png" in Stale({"food_12.png"}, FoodPrefix(1), FoodPrefix(1) + ".jpg")
  {
    assert IntToString(1) == "1";
    assert StartsWith("food_12.png", "food_1");
  }
}
