/** The single-image uploader (`upload_image.py`): copy an image into the staging
    clone's `images/` directory, then `git add`, `git commit` and `git push` it, and
    format the raw-content URL under which the pushed file is served. */
module Uploader {
  import opened Outcomes
  import opened Text
  import opened PurePaths
  import opened Files

  /** Host prefix of every URL the uploader hands out. */
  const RawHost: string := "https://raw.githubusercontent.com/"

  /** Whether each of the three git commands exits with status 0. */
  datatype GitOutcome = GitOutcome(addOk: bool, commitOk: bool, pushOk: bool)
  {
    predicate AllOk()
    {
      addOk && commitOk && pushOk
    }
  }

  /** A git command run in the staging clone. */
  datatype GitCommand = Add(path: string) | Commit(message: string) | Push

  /** The exceptions `upload_image` lets escape. */
  datatype UploadError =
    | ImageNotFound(path: string)  // raised by the existence check
    | IsADirectory(path: string)   // raised by the copy when the path names a directory

  /** What a call to `upload_image` ends in: an exception, `None` after a git failure, or a URL. */
  datatype Upload = Raised(error: UploadError) | GitFailed | Uploaded(url: string)

  /** The name the image gets under `images/`: a truthy custom name, with the source's
      suffix appended when it has no suffix of its own; otherwise the source's own name. */
  function DestName(imagePath: string, customName: Option<string>): string
  {
    if Truthy(customName) then
      if Suffix(Name(customName.value)) == "" then customName.value + Suffix(Name(imagePath))
      else customName.value
    else Name(imagePath)
  }

  /** Path of the staged copy, relative to the clone. */
  function StagedPath(dest: string): string
  {
    "images/" + dest
  }

  function CommitMessage(dest: string): string
  {
    "Add image: " + dest
  }

  function ImageUrl(user: string, repo: string, dest: string): string
  {
    RawHost + user + "/" + repo + "/main/images/" + dest
  }

  /** The git commands run for one staged image: each one is attempted only after
      the previous one succeeded. */
  function GitRun(dest: string, o: GitOutcome): seq<GitCommand>
  {
    [Add(StagedPath(dest))] +
    (if !o.addOk then []
     else [Commit(CommitMessage(dest))] + (if !o.commitOk then [] else [Push]))
  }

  /** The value `upload_image` returns, or the exception it raises. */
  function UploadResult(fs: FileSystem, imagePath: string, customName: Option<string>,
                        o: GitOutcome, user: string, repo: string): Upload
  {
    if !fs.Exists(imagePath) then Raised(ImageNotFound(imagePath))
    else if imagePath !in fs.files then Raised(IsADirectory(imagePath))
    else if !o.AllOk() then GitFailed
    else Uploaded(ImageUrl(user, repo, DestName(imagePath, customName)))
  }

  /** The three ways of naming the destination. */
  lemma DestNameCases(imagePath: string, customName: Option<string>)
    ensures !Truthy(customName) ==> DestName(imagePath, customName) == Name(imagePath)
    ensures Truthy(customName) && Suffix(Name(customName.value)) != "" ==>
              DestName(imagePath, customName) == customName.value
    ensures Truthy(customName) && Suffix(Name(customName.value)) == "" ==>
              DestName(imagePath, customName) == customName.value + Suffix(Name(imagePath))
  {
  }

  /** A truthy custom name whose final component is not empty yields a destination whose
      suffix is the custom name's own, or else the source file's: the file type survives. */
  lemma DestNameKeepsFileType(imagePath: string, customName: Option<string>)
    requires Truthy(customName)
    requires customName.value[|customName.value| - 1] != '/'
    ensures Suffix(Name(DestName(imagePath, customName))) ==
              if Suffix(Name(customName.value)) != "" then Suffix(Name(customName.value))
              else Suffix(Name(imagePath))
  {
    var c := customName.value;
    var suf := Suffix(Name(imagePath));
    if Suffix(Name(c)) == "" && suf != "" {
      StemSuffixSplit(Name(imagePath));
      SuffixOfAppended(c, suf);
    } else if Suffix(Name(c)) == "" {
      assert c + suf == c;
    }
  }

  /** The batch driver uploads `<folder>/<n>` under the custom name `Path(n).stem`. The
      destination is `n` itself exactly when that stem has no suffix of its own; otherwise
      (a name such as `a.b.jpg`) the destination is the bare stem and the extension is dropped. */
  lemma {:induction false} BatchDestName(folder: string, n: string)
    requires '/' !in n && n != ""
    ensures Truthy(Some(Stem(n)))
    ensures DestName(folder + "/" + n, Some(Stem(n))) == if Suffix(Stem(n)) == "" then n else Stem(n)
  {
    StemSuffixSplit(n);
    NameOfChild(folder, n);
    assert '/' !in Stem(n) by {
      assert forall c :: c in Stem(n) ==> c in n by {
        assert n == Stem(n) + Suffix(n);
      }
    }
    NameOfBare(Stem(n));
  }

  /** `a.b.jpg` is uploaded as `a.b`. */
  lemma DottedStemLosesExtension()
    ensures DestName("Package4/PRODUCT_1/a.b.jpg", Some(Stem("a.b.jpg"))) == "a.b"
  {
    assert "a.b.jpg" == "a.b" + ".jpg";
    SplitAtSuffix("a.b", ".jpg");
    assert "a.b" == "a" + ".b";
    SplitAtSuffix("a", ".b");
    BatchDestName("Package4/PRODUCT_1", "a.b.jpg");
  }

  /** The URL names the destination file: its final component is the destination name,
      and for a fixed user and repository two different names give two different URLs. */
  lemma {:induction false} ImageUrlNamesFile(user: string, repo: string, dest: string, other: string)
    requires '/' !in dest
    ensures Name(ImageUrl(user, repo, dest)) == dest
    ensures ImageUrl(user, repo, dest) == ImageUrl(user, repo, other) ==> dest == other
  {
    var pre := RawHost + user + "/" + repo + "/main/images/";
    assert ImageUrl(user, repo, dest) == pre + dest;
    assert ImageUrl(user, repo, other) == pre + other;
    NameAfterSeparator(pre, dest);
    if pre + dest == pre + other {
      assert dest == (pre + dest)[|pre|..];
      assert other == (pre + other)[|pre|..];
    }
  }

  /** A prefix that ends in a separator, then a name without one: that name is the
      final component. */
  lemma NameAfterSeparator(pre: string, n: string)
    requires |pre| > 0 && pre[|pre| - 1] == '/' && '/' !in n
    ensures Name(pre + n) == n
  {
    assert pre == pre[..|pre| - 1] + "/";
    NameOfChild(pre[..|pre| - 1], n);
  }

  /** The commit message determines the destination name it was made for. */
  lemma CommitMessageInjective(d1: string, d2: string)
    requires CommitMessage(d1) == CommitMessage(d2)
    ensures d1 == d2
  {
    assert d1 == CommitMessage(d1)[11..];
    assert d2 == CommitMessage(d2)[11..];
  }

  /** The commands run are a prefix of add, commit, push: a command runs only when all the
      commands before it succeeded, and a failure runs nothing after it. */
  lemma GitRunOrdered(dest: string, o: GitOutcome)
    ensures var full := [Add(StagedPath(dest)), Commit(CommitMessage(dest)), Push];
            var run := GitRun(dest, o);
            1 <= |run| <= 3 && run == full[..|run|]
            && (|run| >= 2 <==> o.addOk)
            && (|run| == 3 <==> o.addOk && o.commitOk)
  {
  }

  /** A missing source raises before anything else is looked at; a URL comes back exactly
      when the source is a regular file and all three git commands succeed. */
  lemma UploadResultCases(fs: FileSystem, imagePath: string, customName: Option<string>,
                          o: GitOutcome, user: string, repo: string)
    ensures !fs.Exists(imagePath) ==>
              UploadResult(fs, imagePath, customName, o, user, repo) == Raised(ImageNotFound(imagePath))
    ensures UploadResult(fs, imagePath, customName, o, user, repo).Uploaded? <==>
              imagePath in fs.files && o.AllOk()
    ensures UploadResult(fs, imagePath, customName, o, user, repo).Uploaded? ==>
              UploadResult(fs, imagePath, customName, o, user, repo).url ==
                ImageUrl(user, repo, DestName(imagePath, customName))
  {
  }

  /** `GitHubImageUploader`: the account and repository it publishes to, the staging
      clone's `images/` directory, and the git commands it has run there. */
  class ImageUploader {
    const repoName: string
    const githubUsername: string
    /** Contents of the clone's `images/` directory, by file name. */
    var images: map<string, Bytes>
    /** The git commands run in the clone, oldest first. */
    var gitLog: seq<GitCommand>

    /** `__init__`: records the repository and account; `images/` is created if missing
        and keeps whatever it already holds. */
    constructor (repoName: string, githubUsername: string, existing: map<string, Bytes>)
      ensures this.repoName == repoName && this.githubUsername == githubUsername
      ensures images == existing && gitLog == []
    {
      this.repoName := repoName;
      this.githubUsername := githubUsername;
      images := existing;
      gitLog := [];
    }

    /** `upload_image`: the existence check comes first and leaves everything untouched;
        otherwise the file is copied (overwriting a same-named one) before any git command,
        and the copy stays even when a git command fails. */
    method UploadImage(fs: FileSystem, imagePath: string, customName: Option<string>, o: GitOutcome)
      returns (r: Upload)
      modifies this
      ensures r == UploadResult(fs, imagePath, customName, o, githubUsername, repoName)
      ensures r.Raised? ==> images == old(images) && gitLog == old(gitLog)
      ensures !r.Raised? ==>
                images == old(images)[DestName(imagePath, customName) := fs.files[imagePath]]
                && gitLog == old(gitLog) + GitRun(DestName(imagePath, customName), o)
    {
      if !fs.Exists(imagePath) {
        return Raised(ImageNotFound(imagePath));
      }
      var dest := DestName(imagePath, customName);
      if imagePath !in fs.files {
        return Raised(IsADirectory(imagePath));
      }
      r := Publish(dest, fs.files[imagePath], o);
    }

    /** The part of `upload_image` after the checks: copy the contents to `images/<dest>`,
        then add, commit and push, stopping at the first command that fails. */
    method Publish(dest: string, contents: Bytes, o: GitOutcome) returns (r: Upload)
      modifies this
      ensures r == if o.AllOk() then Uploaded(ImageUrl(githubUsername, repoName, dest)) else GitFailed
      ensures images == old(images)[dest := contents]
      ensures gitLog == old(gitLog) + GitRun(dest, o)
    {
      images := images[dest := contents];
      ghost var log0 := gitLog;
      var add, commit := Add(StagedPath(dest)), Commit(CommitMessage(dest));
      gitLog := gitLog + [add];
      if !o.addOk {
        assert GitRun(dest, o) == [add];
        return GitFailed;
      }
      gitLog := gitLog + [commit];
      assert gitLog == log0 + [add, commit];
      if !o.commitOk {
        assert GitRun(dest, o) == [add, commit];
        return GitFailed;
      }
      gitLog := gitLog + [Push];
      assert gitLog == log0 + [add, commit, Push];
      assert GitRun(dest, o) == [add, commit, Push];
      if !o.pushOk {
        return GitFailed;
      }
      r := Uploaded(ImageUrl(githubUsername, repoName, dest));
    }
  }
}
