/**
 * The image picker's state (app/admin/components/ImageUpload.tsx): the
 * selected files, the public ids uploaded so far, and the upload loop that
 * stops at the first failed file. The upload service is not modelled: the
 * caller supplies what each file's upload request returned.
 */
module ImageUpload {
  import opened Wrappers

  /** What the upload request for one file came back with. */
  datatype UploadOutcome =
    | Uploaded(publicId: string)      // `res.ok`: the service's `public_id`
    | Rejected(message: string)       // an error response: its `error.message`
    | NetworkError(message: string)   // the request threw: the exception's message

  const NoSelection := "Please select files to upload."

  /** How many files, from the first, uploaded before the first failure. */
  function SuccessfulRun(outcomes: seq<UploadOutcome>): (n: nat)
    ensures n <= |outcomes|
    ensures forall i :: 0 <= i < n ==> outcomes[i].Uploaded?
    ensures n < |outcomes| ==> !outcomes[n].Uploaded?
  {
    if outcomes == [] || !outcomes[0].Uploaded? then 0
    else 1 + SuccessfulRun(outcomes[1..])
  }

  /** The public ids of the uploads before the first failure, in file order. */
  function UploadedIds(outcomes: seq<UploadOutcome>): (ids: seq<string>)
    ensures |ids| == SuccessfulRun(outcomes)
    ensures forall i :: 0 <= i < |ids| ==> outcomes[i] == Uploaded(ids[i])
  {
    seq(SuccessfulRun(outcomes), i requires 0 <= i < SuccessfulRun(outcomes) => outcomes[i].publicId)
  }

  /** The error the loop leaves: the first failure's, or none when every file uploaded. */
  function UploadError(files: seq<string>, outcomes: seq<UploadOutcome>): (r: Option<string>)
    requires |files| == |outcomes|
    ensures r.None? <==> forall i :: 0 <= i < |outcomes| ==> outcomes[i].Uploaded?
  {
    var n := SuccessfulRun(outcomes);
    if n == |outcomes| then None
    else match outcomes[n]
      case Rejected(message) => Some("Failed to upload " + files[n] + ": " + message)
      case NetworkError(message) => Some("Network error uploading " + files[n] + ": " + message)
      case Uploaded(_) => None
  }

  /** The run is the only length whose files all uploaded and which ends at a failure or at the end. */
  lemma {:induction false} SuccessfulRunUnique(outcomes: seq<UploadOutcome>, k: nat)
    requires k <= |outcomes|
    requires forall i :: 0 <= i < k ==> outcomes[i].Uploaded?
    requires k < |outcomes| ==> !outcomes[k].Uploaded?
    ensures SuccessfulRun(outcomes) == k
  {
    if outcomes != [] && k != 0 {
      assert outcomes[0].Uploaded?;
      SuccessfulRunUnique(outcomes[1..], k - 1);
    }
  }

  /** When every upload succeeds, every file's id is kept, in order. */
  lemma AllUploaded(outcomes: seq<UploadOutcome>)
    requires forall i :: 0 <= i < |outcomes| ==> outcomes[i].Uploaded?
    ensures |UploadedIds(outcomes)| == |outcomes|
    ensures forall i :: 0 <= i < |outcomes| ==> UploadedIds(outcomes)[i] == outcomes[i].publicId
  {
    SuccessfulRunUnique(outcomes, |outcomes|);
  }

  /** A failure hides everything after it: what follows the first failure does not matter. */
  lemma FailureHidesRest(ok: seq<string>, failure: UploadOutcome, rest: seq<UploadOutcome>)
    requires !failure.Uploaded?
    ensures var outcomes := seq(|ok|, i requires 0 <= i < |ok| => Uploaded(ok[i])) + [failure] + rest;
      UploadedIds(outcomes) == ok
  {
    var outcomes := seq(|ok|, i requires 0 <= i < |ok| => Uploaded(ok[i])) + [failure] + rest;
    assert outcomes[|ok|] == failure;
    assert forall i :: 0 <= i < |ok| ==> outcomes[i] == Uploaded(ok[i]);
    SuccessfulRunUnique(outcomes, |ok|);
  }

  /** `prev.filter((publicId) => publicId !== publicIdToRemove)`. */
  function Without(ids: seq<string>, x: string): (r: seq<string>)
    ensures x !in r
    ensures |r| <= |ids|
  {
    if ids == [] then []
    else Without(ids[..|ids| - 1], x) + (if ids[|ids| - 1] != x then [ids[|ids| - 1]] else [])
  }

  /** Removal works piece by piece, so the other ids keep their order. */
  lemma {:induction false} WithoutAppend(a: seq<string>, b: seq<string>, x: string)
    ensures Without(a + b, x) == Without(a, x) + Without(b, x)
    decreases |b|
  {
    if b == [] {
      assert a + b == a;
    } else {
      var init := b[..|b| - 1];
      assert (a + b)[..|a + b| - 1] == a + init;
      assert (a + b)[|a + b| - 1] == b[|b| - 1];
      WithoutAppend(a, init, x);
    }
  }

  /** Removal drops every copy of the removed id and keeps every copy of every other id. */
  lemma {:induction false} WithoutCounts(ids: seq<string>, x: string, y: string)
    ensures multiset(Without(ids, x))[y] == if y == x then 0 else multiset(ids)[y]
  {
    if ids != [] {
      var init := ids[..|ids| - 1];
      WithoutCounts(init, x, y);
      assert ids == init + [ids[|ids| - 1]];
    }
  }

  /** The picker component's state. */
  class Uploader {
    var selectedFiles: seq<string>
    var uploadedPublicIds: seq<string>
    var uploading: bool
    var error: Option<string>

    /** The first render with `initialCloudinaryPublicIds`. */
    constructor (initialCloudinaryPublicIds: seq<string>)
      ensures selectedFiles == [] && uploadedPublicIds == initialCloudinaryPublicIds
      ensures !uploading && error.None?
    {
      selectedFiles := [];
      uploadedPublicIds := initialCloudinaryPublicIds;
      uploading := false;
      error := None;
    }

    /** `handleFileChange`: a file list replaces the selection; no list leaves it. */
    method HandleFileChange(files: Option<seq<string>>)
      modifies this
      ensures selectedFiles == if files.Some? then files.value else old(selectedFiles)
      ensures uploadedPublicIds == old(uploadedPublicIds) && uploading == old(uploading) && error == old(error)
    {
      if files.Some? {
        selectedFiles := files.value;
      }
    }

    /**
     * `handleUpload`: with nothing selected, only the error is set. Otherwise the
     * files are uploaded in order until one fails; the ids of those that
     * uploaded are appended, and the selection is cleared. `outcomes[i]` is what
     * the request for `selectedFiles[i]` returns; `attempted` is how many
     * requests were made.
     */
    method HandleUpload(outcomes: seq<UploadOutcome>) returns (attempted: nat)
      requires |outcomes| == |selectedFiles|
      modifies this
      ensures old(selectedFiles) == [] ==>
                && attempted == 0 && error == Some(NoSelection)
                && selectedFiles == old(selectedFiles) && uploadedPublicIds == old(uploadedPublicIds)
                && uploading == old(uploading)
      ensures old(selectedFiles) != [] ==>
                && attempted == (if SuccessfulRun(outcomes) < |outcomes| then SuccessfulRun(outcomes) + 1 else |outcomes|)
                && uploadedPublicIds == old(uploadedPublicIds) + UploadedIds(outcomes)
                && error == UploadError(old(selectedFiles), outcomes)
                && selectedFiles == [] && !uploading
    {
      if |selectedFiles| == 0 {
        error := Some(NoSelection);
        return 0;
      }
      uploading := true;
      error := None;
      var newPublicIds: seq<string> := [];
      var i := 0;
      attempted := 0;
      while i < |selectedFiles|
        invariant 0 <= i <= |selectedFiles| == |outcomes|
        invariant selectedFiles == old(selectedFiles) && uploadedPublicIds == old(uploadedPublicIds)
        invariant i <= SuccessfulRun(outcomes)
        invariant attempted == i && error.None?
        invariant newPublicIds == UploadedIds(outcomes)[..i]
        decreases |selectedFiles| - i
      {
        attempted := attempted + 1;
        match outcomes[i] {
          case Uploaded(publicId) =>
            newPublicIds := newPublicIds + [publicId];
          case Rejected(message) =>
            error := Some("Failed to upload " + selectedFiles[i] + ": " + message);
            break;
          case NetworkError(message) =>
            error := Some("Network error uploading " + selectedFiles[i] + ": " + message);
            break;
        }
        i := i + 1;
      }
      uploadedPublicIds := uploadedPublicIds + newPublicIds;
      selectedFiles := [];
      uploading := false;
    }

    /** `handleRemoveImage`: only the id list changes; nothing is deleted from storage. */
    method HandleRemoveImage(publicIdToRemove: string)
      modifies this
      ensures uploadedPublicIds == Without(old(uploadedPublicIds), publicIdToRemove)
      ensures selectedFiles == old(selectedFiles) && uploading == old(uploading) && error == old(error)
    {
      uploadedPublicIds := Without(uploadedPublicIds, publicIdToRemove);
    }
  }
}
