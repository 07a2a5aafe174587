/**
 * The four profile-picture handlers under /api/pfp/. Each runs for the user the
 * authentication decorator found, identified by `userId`. Object storage is outside
 * the model: what `upload_to_s3` and `delete_from_s3` returned or raised is an input,
 * and the handlers report the storage name they asked it to write or delete.
 */
module RoutesUser {
  import opened Wrappers
  import opened Text
  import opened Models
  import opened AwsUtils

  /** The `profile_picture` part of a multipart request. */
  datatype FilePart = FilePart(filename: string)

  /** What resizing and uploading did: returned the public URL (or None), or raised. */
  datatype UploadOutcome = UploadReturned(url: Option<string>) | UploadRaised(message: string)

  /** What `delete_from_s3` did: returned whether it deleted, or raised. */
  datatype DeleteOutcome = DeleteReturned(deleted: bool) | DeleteRaised(message: string)

  const InvalidTypeMessage: string := "Invalid file type. Only PNG, JPG, JPEG, and GIF are allowed"
  const ExistsMessage: string := "Profile picture already exists. Use PUT /api/pfp/ to update it."

  function ErrorReply(status: int, message: string): Reply {
    Reply(status, map["error" := message])
  }

  /** A file the upload handler accepts: present, named, with an allowed extension. */
  predicate Acceptable(file: Option<FilePart>) {
    file.Some? && file.value.filename != "" && AllowedFile(file.value.filename)
  }

  /** `user.profile_picture_url and user.profile_picture_filename`. */
  predicate HasPicture(u: User) {
    Truthy(u.profilePictureUrl) && Truthy(u.profilePictureFilename)
  }

  /** The URL and the storage name of every user are set together or not at all. */
  predicate PicturesConsistent(users: seq<User>) {
    forall i :: 0 <= i < |users| ==> Truthy(users[i].profilePictureUrl) == Truthy(users[i].profilePictureFilename)
  }

  /** The users table after assigning both picture columns of the user at position i. */
  function SetPicture(users: seq<User>, i: nat, url: Option<string>, filename: Option<string>): (r: seq<User>)
    requires i < |users|
    ensures |r| == |users| && r[i].id == users[i].id && r[i].firebaseUid == users[i].firebaseUid
    ensures r[i].profilePictureUrl == url && r[i].profilePictureFilename == filename
    ensures forall j :: 0 <= j < |users| && j != i ==> r[j] == users[j]
    ensures PicturesConsistent(users) && Truthy(url) == Truthy(filename) ==> PicturesConsistent(r)
  {
    users[i := users[i].(profilePictureUrl := url, profilePictureFilename := filename)]
  }

  /** The reply once the new image was handed to storage: 200 with its URL and name when
      storage returned a URL, otherwise the handler's 500. */
  function AfterUpload(upload: UploadOutcome, stored: string, success: string,
                       failure: string, raisedPrefix: string): (r: Reply)
    ensures r.status == 200 <==> upload.UploadReturned? && Truthy(upload.url)
    ensures r.status == 200 ==> "url" in r.body && r.body["url"] == upload.url.value
    ensures r.status == 200 ==> "filename" in r.body && r.body["filename"] == stored
    ensures r.status != 200 ==> r.status == 500
    ensures upload.UploadRaised? ==> r == ErrorReply(500, raisedPrefix + upload.message)
  {
    match upload
    case UploadRaised(m) => ErrorReply(500, raisedPrefix + m)
    case UploadReturned(url) =>
      if Truthy(url) then Reply(200, map["message" := success, "url" := url.value, "filename" := stored])
      else ErrorReply(500, failure)
  }

  /** Changing no primary key changes no lookup by primary key. */
  lemma {:induction false} SameIdsSameLookup(a: seq<User>, b: seq<User>, id: nat)
    requires |a| == |b| && forall j :: 0 <= j < |a| ==> a[j].id == b[j].id
    ensures FindById(a, UserId, id) == FindById(b, UserId, id)
  {
    if a != [] && a[|a| - 1].id != id {
      SameIdsSameLookup(a[..|a| - 1], b[..|b| - 1], id);
    }
  }

  /** POST /api/pfp/: store a first profile picture. `hex` is the random part of the new
      storage name; `storedAs` is the name the handler uploaded under, if it got that far. */
  method UploadProfilePicture(db: Database, userId: nat, file: Option<FilePart>, hex: string,
                              upload: UploadOutcome)
    returns (reply: Reply, storedAs: Option<string>)
    requires IsUuid4Hex(hex)
    modifies db`users
    ensures file.None? ==> reply == ErrorReply(400, "No file provided")
    ensures file.Some? && file.value.filename == "" ==> reply == ErrorReply(400, "No file selected")
    ensures file.Some? && file.value.filename != "" && !AllowedFile(file.value.filename) ==>
              reply == ErrorReply(400, InvalidTypeMessage)
    ensures Acceptable(file) && FindById(old(db.users), UserId, userId).None? ==>
              reply == ErrorReply(404, "User not found")
    ensures Acceptable(file) && FindById(old(db.users), UserId, userId).Some? &&
            HasPicture(old(db.users)[FindById(old(db.users), UserId, userId).value]) ==>
              var u := old(db.users)[FindById(old(db.users), UserId, userId).value];
              reply == Reply(409, map["error" := ExistsMessage, "existing_url" := u.profilePictureUrl.value])
    ensures storedAs.Some? <==>
              Acceptable(file) && FindById(old(db.users), UserId, userId).Some? &&
              !HasPicture(old(db.users)[FindById(old(db.users), UserId, userId).value])
    ensures storedAs.Some? ==>
              && storedAs == GenerateUniqueFilename(hex, file.value.filename)
              && reply == AfterUpload(upload, storedAs.value, "Profile picture uploaded successfully",
                                      "Failed to upload image", "Upload failed: ")
    ensures reply.status == 200 ==>
              storedAs.Some? && upload.UploadReturned? &&
              db.users == SetPicture(old(db.users), FindById(old(db.users), UserId, userId).value,
                                     upload.url, storedAs)
    ensures reply.status != 200 ==> db.users == old(db.users)
    ensures PicturesConsistent(old(db.users)) ==> PicturesConsistent(db.users)
  {
    storedAs := None;
    if file.None? {
      return ErrorReply(400, "No file provided"), None;
    }
    var name := file.value.filename;
    if name == "" {
      return ErrorReply(400, "No file selected"), None;
    }
    if !AllowedFile(name) {
      return ErrorReply(400, InvalidTypeMessage), None;
    }
    var i := FindById(db.users, UserId, userId);
    if i.None? {
      return ErrorReply(404, "User not found"), None;
    }
    var u := db.users[i.value];
    if HasPicture(u) {
      return Reply(409, map["error" := ExistsMessage, "existing_url" := u.profilePictureUrl.value]), None;
    }
    storedAs := GenerateUniqueFilename(hex, name);
    reply := AfterUpload(upload, storedAs.value, "Profile picture uploaded successfully",
                         "Failed to upload image", "Upload failed: ");
    if reply.status == 200 {
      db.users := SetPicture(db.users, i.value, upload.url, storedAs);
    }
  }

  /** PUT /api/pfp/: replace the profile picture. The old object is deleted from storage
      BEFORE the new one is uploaded; `deletedName` is the name the handler asked storage
      to delete, whose result it ignores unless the call raised. */
  method UpdateProfilePicture(db: Database, userId: nat, file: Option<FilePart>, hex: string,
                              deleteOld: DeleteOutcome, upload: UploadOutcome)
    returns (reply: Reply, deletedName: Option<string>, storedAs: Option<string>)
    requires IsUuid4Hex(hex)
    modifies db`users
    ensures file.None? ==> reply == ErrorReply(400, "No file provided")
    ensures file.Some? && !Acceptable(file) ==> reply == ErrorReply(400, "Invalid file")
    ensures Acceptable(file) && FindById(old(db.users), UserId, userId).None? ==>
              reply == ErrorReply(404, "User not found")
    ensures deletedName.Some? <==>
              Acceptable(file) && FindById(old(db.users), UserId, userId).Some? &&
              Truthy(old(db.users)[FindById(old(db.users), UserId, userId).value].profilePictureFilename)
    ensures deletedName.Some? ==>
              deletedName == old(db.users)[FindById(old(db.users), UserId, userId).value].profilePictureFilename
    ensures deletedName.Some? && deleteOld.DeleteRaised? ==>
              reply == ErrorReply(500, "Update failed: " + deleteOld.message) && storedAs.None?
    ensures storedAs.Some? <==>
              Acceptable(file) && FindById(old(db.users), UserId, userId).Some? &&
              (deletedName.None? || deleteOld.DeleteReturned?)
    ensures storedAs.Some? ==>
              && storedAs == GenerateUniqueFilename(hex, file.value.filename)
              && reply == AfterUpload(upload, storedAs.value, "Profile picture updated successfully",
                                      "Failed to update image", "Update failed: ")
    ensures reply.status == 200 ==>
              storedAs.Some? && upload.UploadReturned? &&
              db.users == SetPicture(old(db.users), FindById(old(db.users), UserId, userId).value,
                                     upload.url, storedAs)
    ensures reply.status != 200 ==> db.users == old(db.users)
    ensures PicturesConsistent(old(db.users)) ==> PicturesConsistent(db.users)
  {
    deletedName, storedAs := None, None;
    if file.None? {
      return ErrorReply(400, "No file provided"), None, None;
    }
    var name := file.value.filename;
    if name == "" || !AllowedFile(name) {
      return ErrorReply(400, "Invalid file"), None, None;
    }
    var i := FindById(db.users, UserId, userId);
    if i.None? {
      return ErrorReply(404, "User not found"), None, None;
    }
    var current := db.users[i.value].profilePictureFilename;
    if Truthy(current) {
      deletedName := current;
      if deleteOld.DeleteRaised? {
        return ErrorReply(500, "Update failed: " + deleteOld.message), deletedName, None;
      }
    }
    storedAs := GenerateUniqueFilename(hex, name);
    reply := AfterUpload(upload, storedAs.value, "Profile picture updated successfully",
                         "Failed to update image", "Update failed: ");
    if reply.status == 200 {
      db.users := SetPicture(db.users, i.value, upload.url, storedAs);
    }
  }

  /** DELETE /api/pfp/: delete the stored object, then clear both columns if storage
      reported the deletion. */
  method DeleteProfilePicture(db: Database, userId: nat, deleteOld: DeleteOutcome)
    returns (reply: Reply, deletedName: Option<string>)
    modifies db`users
    ensures FindById(old(db.users), UserId, userId).None? ==>
              reply == ErrorReply(404, "User not found") && deletedName.None?
    ensures deletedName.Some? <==>
              FindById(old(db.users), UserId, userId).Some? &&
              Truthy(old(db.users)[FindById(old(db.users), UserId, userId).value].profilePictureFilename)
    ensures deletedName.Some? ==>
              deletedName == old(db.users)[FindById(old(db.users), UserId, userId).value].profilePictureFilename
    ensures FindById(old(db.users), UserId, userId).Some? && deletedName.None? ==>
              reply == ErrorReply(404, "No profile picture found")
    ensures deletedName.Some? ==>
              reply == match deleteOld
                       case DeleteRaised(m) => ErrorReply(500, "Delete failed: " + m)
                       case DeleteReturned(false) => ErrorReply(500, "Failed to delete image from storage")
                       case DeleteReturned(true) => Reply(200, map["message" := "Profile picture deleted successfully"])
    ensures reply.status == 200 ==>
              db.users == SetPicture(old(db.users), FindById(old(db.users), UserId, userId).value, None, None)
    ensures reply.status != 200 ==> db.users == old(db.users)
    ensures PicturesConsistent(old(db.users)) ==> PicturesConsistent(db.users)
  {
    deletedName := None;
    var i := FindById(db.users, UserId, userId);
    if i.None? {
      return ErrorReply(404, "User not found"), None;
    }
    var current := db.users[i.value].profilePictureFilename;
    if !Truthy(current) {
      return ErrorReply(404, "No profile picture found"), None;
    }
    deletedName := current;
    match deleteOld
    case DeleteRaised(m) =>
      reply := ErrorReply(500, "Delete failed: " + m);
    case DeleteReturned(false) =>
      reply := ErrorReply(500, "Failed to delete image from storage");
    case DeleteReturned(true) =>
      db.users := SetPicture(db.users, i.value, None, None);
      reply := Reply(200, map["message" := "Profile picture deleted successfully"]);
  }

  /** GET /api/pfp/: the stored URL, if there is one. */
  method GetProfilePicture(db: Database, userId: nat) returns (reply: Reply)
    ensures reply.status == 200 <==>
              FindById(db.users, UserId, userId).Some? &&
              Truthy(db.users[FindById(db.users, UserId, userId).value].profilePictureUrl)
    ensures reply.status == 200 ==>
              reply.body == map["profile_picture_url" :=
                                 db.users[FindById(db.users, UserId, userId).value].profilePictureUrl.value]
    ensures FindById(db.users, UserId, userId).None? ==> reply == ErrorReply(404, "User not found")
    ensures FindById(db.users, UserId, userId).Some? && reply.status != 200 ==>
              reply == Reply(404, map["message" := "No profile picture found"])
  {
    var i := FindById(db.users, UserId, userId);
    if i.None? {
      return ErrorReply(404, "User not found");
    }
    var url := db.users[i.value].profilePictureUrl;
    if Truthy(url) {
      reply := Reply(200, map["profile_picture_url" := url.value]);
    } else {
      reply := Reply(404, map["message" := "No profile picture found"]);
    }
  }

  /** A successful upload leaves the user with a picture, so a second POST is refused
      with 409 and uploads nothing. */
  method UploadTwice(db: Database, userId: nat, file: Option<FilePart>, hex1: string, hex2: string,
                     upload1: UploadOutcome, upload2: UploadOutcome)
    returns (first: Reply, second: Reply, storedSecond: Option<string>)
    requires IsUuid4Hex(hex1) && IsUuid4Hex(hex2)
    modifies db`users
    ensures first.status == 200 ==> second.status == 409 && storedSecond.None?
  {
    ghost var before := db.users;
    var s;
    first, s := UploadProfilePicture(db, userId, file, hex1, upload1);
    if first.status == 200 {
      var i := FindById(before, UserId, userId).value;
      SameIdsSameLookup(before, db.users, userId);
      assert HasPicture(db.users[i]);
    }
    second, storedSecond := UploadProfilePicture(db, userId, file, hex2, upload2);
  }
}
