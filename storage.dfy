/** FirebaseStorageService.java: the image upload's name and URL building, and the write to the
    bucket. The bucket is the list of object names written to it; the random UUID and the
    outcome of the write are parameters. */
module ImageStorage {
  import opened Wrappers
  import opened Text

  const TrafficReportsFolder: string := "traffic-reports"
  const EmptyFileMessage: string := "File cannot be empty"
  const UrlPrefix: string := "https://firebasestorage.googleapis.com/v0/b/"

  /** getFileExtension: "" for a missing name or one without '.', otherwise the suffix from the
      last '.' on. That suffix starts with '.', holds no other '.', and ends the name. */
  function GetFileExtension(fileName: Option<string>): (e: string)
    ensures fileName.None? || '.' !in fileName.value ==> e == ""
    ensures fileName.Some? && '.' in fileName.value ==>
              && 1 <= |e| <= |fileName.value| && e[0] == '.' && '.' !in e[1..]
              && fileName.value == fileName.value[..|fileName.value| - |e|] + e
  {
    if fileName.None? || LastIndexOf(fileName.value, '.') == -1 then ""
    else fileName.value[LastIndexOf(fileName.value, '.')..]
  }

  /** The object name: "traffic-reports/<id>/report_<id>_<uuid><extension>". */
  function ObjectName(reportId: int, uuid: string, extension: string): string
  {
    TrafficReportsFolder + "/" + IntToString(reportId) + "/" + "report_" + IntToString(reportId) + "_" + uuid + extension
  }

  /** `replace("/", "%2F")`: every '/' becomes its percent-encoding (section 2.1 of RFC 3986);
      every other character is kept. */
  function EncodeSlashes(s: string): (r: string)
    ensures '/' !in r
    ensures |r| == |s| + 2 * multiset(s)['/']
  {
    if |s| == 0 then ""
    else
      assert s == [s[0]] + s[1..];
      (if s[0] == '/' then "%2F" else [s[0]]) + EncodeSlashes(s[1..])
  }

  /** The inverse decoding of "%2F" back to '/', left to right. */
  function DecodeSlashes(s: string): string
  {
    if |s| == 0 then ""
    else if |s| >= 3 && s[..3] == "%2F" then "/" + DecodeSlashes(s[3..])
    else [s[0]] + DecodeSlashes(s[1..])
  }

  lemma DecodeEncodedSlash(rest: string)
    ensures DecodeSlashes("%2F" + rest) == "/" + DecodeSlashes(rest)
  {
    var e := "%2F" + rest;
    assert e[..3] == "%2F" && e[3..] == rest;
  }

  lemma DecodeOtherChar(c: char, rest: string)
    requires c != '%'
    ensures DecodeSlashes([c] + rest) == [c] + DecodeSlashes(rest)
  {
    var e := [c] + rest;
    assert e[0] == c && e[1..] == rest;
    assert !(|e| >= 3 && e[..3] == "%2F") by {
      if |e| >= 3 {
        assert e[..3][0] == c;
      }
    }
  }

  /** A name with no '%' in it is recovered from its encoding. */
  lemma {:induction false} SlashEncodingRoundTrip(s: string)
    requires '%' !in s
    ensures DecodeSlashes(EncodeSlashes(s)) == s
  {
    if |s| > 0 {
      var rest := EncodeSlashes(s[1..]);
      SlashEncodingRoundTrip(s[1..]);
      assert s == [s[0]] + s[1..];
      if s[0] == '/' {
        assert EncodeSlashes(s) == "%2F" + rest;
        DecodeEncodedSlash(rest);
      } else {
        assert EncodeSlashes(s) == [s[0]] + rest;
        assert s[0] in s;
        DecodeOtherChar(s[0], rest);
      }
    }
  }

  /** The download URL String.format builds. */
  function DownloadUrl(bucket: string, objectName: string): string
  {
    UrlPrefix + bucket + "/o/" + EncodeSlashes(objectName) + "?alt=media"
  }

  /** A numeral holds no '%'. */
  lemma NumeralHasNoPercent(i: int)
    ensures '%' !in IntToString(i)
  {
    var s := IntToString(i);
    if i >= 0 {
      assert IsDigits(NatToString(i));
    } else {
      assert IsDigits(NatToString(-i));
      assert s == "-" + NatToString(-i);
    }
  }

  /** For any report id, UUID and extension, the URL is the prefix, the bucket, "/o/", the
      encoded object name and "?alt=media", and that encoded name holds no '/': the whole object
      name is one path segment of the URL, three characters longer per '/' it had. */
  lemma DownloadUrlShape(bucket: string, reportId: int, uuid: string, extension: string)
    ensures var name := ObjectName(reportId, uuid, extension);
            var encoded := EncodeSlashes(name);
            && DownloadUrl(bucket, name) == UrlPrefix + bucket + "/o/" + encoded + "?alt=media"
            && '/' !in encoded
            && |encoded| == |name| + 2 * multiset(name)['/']
  {
  }

  /** When the UUID and the extension hold no '%', the encoded name in the URL decodes back to
      the object name (the report id's numeral never holds one). */
  lemma DownloadUrlRoundTrip(bucket: string, reportId: int, uuid: string, extension: string)
    requires '%' !in uuid && '%' !in extension
    ensures var name := ObjectName(reportId, uuid, extension);
            DecodeSlashes(EncodeSlashes(name)) == name
  {
    var name := ObjectName(reportId, uuid, extension);
    NumeralHasNoPercent(reportId);
    assert '%' !in name;
    SlashEncodingRoundTrip(name);
  }

  /** The multipart file: missing (null), or its emptiness and its original file name. */
  datatype ImageFile = ImageFile(isEmpty: bool, originalFilename: Option<string>)

  datatype StorageError = IllegalArgument(message: string) | WriteFailed

  /** The name an upload of `file` is stored under. */
  function StoredName(file: ImageFile, reportId: int, uuid: string): string
  {
    ObjectName(reportId, uuid, GetFileExtension(file.originalFilename))
  }

  /** What uploadReportImage returns: the refusal of a missing or empty file, a failed write, or
      the URL of the stored object. */
  function UploadOutcome(bucket: string, file: Option<ImageFile>, reportId: int, uuid: string,
                         writeSucceeds: bool): (r: Result<string, StorageError>)
    ensures r.Ok? <==> file.Some? && !file.value.isEmpty && writeSucceeds
    ensures file.None? || file.value.isEmpty ==> r == Err(IllegalArgument(EmptyFileMessage))
    ensures file.Some? && !file.value.isEmpty && !writeSucceeds ==> r == Err(WriteFailed)
    ensures r.Ok? ==> r.value == DownloadUrl(bucket, StoredName(file.value, reportId, uuid))
  {
    if file.None? || file.value.isEmpty then Err(IllegalArgument(EmptyFileMessage))
    else if !writeSucceeds then Err(WriteFailed)
    else Ok(DownloadUrl(bucket, StoredName(file.value, reportId, uuid)))
  }

  class FirebaseStorage {
    const bucketName: string
    /** The object names written to the bucket, oldest first. */
    var objects: seq<string>

    constructor(bucketName: string)
      ensures this.bucketName == bucketName && objects == []
    {
      this.bucketName := bucketName;
      objects := [];
    }

    /** uploadReportImage: a missing or empty file is refused before the bucket is touched; a
        failed write writes nothing; a successful one writes the object and returns its URL. */
    method UploadReportImage(file: Option<ImageFile>, reportId: int, uuid: string, writeSucceeds: bool)
      returns (result: Result<string, StorageError>)
      modifies this
      ensures result == UploadOutcome(bucketName, file, reportId, uuid, writeSucceeds)
      ensures result.Err? ==> objects == old(objects)
      ensures result.Ok? ==> objects == old(objects) + [StoredName(file.value, reportId, uuid)]
    {
      if file.None? || file.value.isEmpty {
        return Err(IllegalArgument(EmptyFileMessage));
      }
      var name := StoredName(file.value, reportId, uuid);
      if !writeSucceeds {
        return Err(WriteFailed);
      }
      objects := objects + [name];
      result := Ok(DownloadUrl(bucketName, name));
    }
  }
}
