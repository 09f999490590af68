/** The command-line side that runs inside the virtual environment (sd_interface.py): the
    skip-if-present fetch of the model weights and the choice of the path an image is saved to.
    The diffusion pipeline itself is opaque: the image it produces is written as a binary file. */
module SdInterface {
  import opened Paths
  import opened System
  import opened Naming
  import opened Py

  /** `import_stable_diffusion(sd_path, sd_url)`: when `sd_path` does not exist it is created and
      the weights are downloaded into it; when it exists nothing happens, so a second call with no
      change in between does nothing. */
  method ImportStableDiffusion(m: Machine, sdPath: string, sdUrl: string)
    modifies m`nodes, m`downloads
    ensures sdPath in m.nodes
    ensures sdPath in old(m.nodes) ==> m.nodes == old(m.nodes) && m.downloads == old(m.downloads)
    ensures sdPath !in old(m.nodes) ==>
      m.nodes == old(m.nodes)[sdPath := Dir] && m.downloads == old(m.downloads) + [Download(sdUrl, sdPath)]
  {
    if !m.Exists(sdPath) {
      var made := m.MakeDirs(sdPath);
      m.Fetch(sdUrl, sdPath);
    }
  }

  /** The path `text2img` asks `uniquify` about: the texture name joined to the save directory,
      with the texture format appended as it is (no dot is inserted). */
  function RequestedPath(savePath: string, textureName: string, textureFormat: string): string {
    Join(savePath, textureName) + textureFormat
  }

  /** ASCII lower case, as `str.lower` acts on the extensions an image library registers. */
  function Lower(s: string): (r: string)
    ensures |r| == |s|
    ensures forall i :: 0 <= i < |s| ==>
      r[i] == if 'A' <= s[i] <= 'Z' then s[i] - 'A' + 'a' else s[i]
  {
    if s == [] then []
    else [if 'A' <= s[0] <= 'Z' then s[0] - 'A' + 'a' else s[0]] + Lower(s[1..])
  }

  /** `text2img`: the image is saved under the first free variant of the requested path, so
      no existing file is overwritten, and that path is returned. `Image.save` picks the file
      format from the lower-cased extension of that path; `savable` stands for the extensions the
      image library can save to, and any other extension (the empty one included) raises before a
      file is opened, leaving the file system as it was. */
  method Text2Img(m: Machine, textureName: string, savePath: string, textureFormat: string,
                  savable: set<string>)
    returns (res: Result<string>, ghost rounds: nat)
    modifies m`nodes
    ensures var requested := RequestedPath(savePath, textureName, textureFormat);
      IsFirstFree(old(m.nodes).Keys, requested, rounds)
    ensures var imagePath := Attempt(RequestedPath(savePath, textureName, textureFormat), rounds);
      imagePath !in old(m.nodes) &&
      if Lower(Ext(imagePath)) in savable then
        res == Ok(imagePath) && m.nodes == old(m.nodes)[imagePath := Binary]
      else
        res == Err(UnknownFileExtension(Lower(Ext(imagePath)))) && m.nodes == old(m.nodes)
  {
    var imagePath;
    imagePath, rounds := Uniquify(m.nodes.Keys, Join(savePath, textureName) + textureFormat);
    var ext := Lower(Ext(imagePath));
    if ext in savable {
      m.Write(imagePath, Binary);
      res := Ok(imagePath);
    } else {
      res := Err(UnknownFileExtension(ext));
    }
  }

  /** Whether the save is refused is decided by the requested path alone: every variant
      `uniquify` may return keeps the requested extension, so an occupied name never turns an
      accepted format into a refused one or the reverse. */
  lemma SaveFormatOfRequest(savePath: string, textureName: string, textureFormat: string, k: nat)
    ensures var requested := RequestedPath(savePath, textureName, textureFormat);
      Ext(Attempt(requested, k)) == Ext(requested)
  {
    if k > 0 {
      CandidateSplits(RequestedPath(savePath, textureName, textureFormat), k);
    }
  }

  /** A format such as ".png" becomes the extension `uniquify` keeps, so the counter goes
      between the texture name and the format, as long as the name has a character other than
      a dot. */
  lemma FormatIsKeptAsExtension(savePath: string, textureName: string, textureFormat: string, n: nat)
    requires textureFormat != [] && IsExtension(textureFormat)
    requires var base := Join(savePath, textureName); HasNonDot(base[LastWhere(base, IsSep) + 1..])
    ensures var requested := RequestedPath(savePath, textureName, textureFormat);
      Ext(requested) == textureFormat &&
      Candidate(requested, n) == Join(savePath, textureName) + Tag(n) + textureFormat
  {
    SplitExtAppendExt(Join(savePath, textureName), textureFormat);
  }
}
