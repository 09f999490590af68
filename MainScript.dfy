/** The early in-process `text2img` (main.py): it saves one image under a fixed path, passed
    through its nested copy of `uniquify`. The prompt, model path and device are constants of the
    script and the pipeline is opaque. */
module MainScript {
  import opened Paths
  import opened System
  import opened Naming

  const Prompt := "A Canadian flag on the back of a boat."

  const Folder := "D:\\Desktop\\torri\\Cavelry Pendents\\"

  /** The raw f-string `D:\Desktop\torri\Cavelry Pendents\{prompt}.png`. */
  const ImagePath := Folder + Prompt + ".png"

  /** `text2img(user_input)`: the image is saved under the first free variant of `ImagePath`. */
  method Text2Img(m: Machine) returns (imagePath: string, ghost rounds: nat)
    modifies m`nodes
    ensures imagePath !in old(m.nodes)
    ensures IsFirstFree(old(m.nodes).Keys, ImagePath, rounds) && imagePath == Attempt(ImagePath, rounds)
    ensures m.nodes == old(m.nodes)[imagePath := Binary]
  {
    imagePath := ImagePath;
    imagePath, rounds := Uniquify(m.nodes.Keys, imagePath);
    m.Write(imagePath, Binary);
  }

  /** The prompt ends in a dot, yet the extension is ".png": a counter lands between "boat."
      and ".png". */
  lemma ImagePathExtension(n: nat)
    ensures Ext(ImagePath) == ".png"
    ensures Candidate(ImagePath, n) == Folder + Prompt + Tag(n) + ".png"
  {
    var stem := Folder + Prompt;
    assert LastWhere(Prompt, IsSep) == -1 by {
      forall i | 0 <= i < |Prompt| ensures !IsSep(Prompt[i]) {
      }
      LastWhereUnique(Prompt, IsSep, -1);
    }
    assert LastWhere(Folder, IsSep) == |Folder| - 1 by {
      LastWhereUnique(Folder, IsSep, |Folder| - 1);
    }
    LastWhereAppend(Folder, Prompt, IsSep);
    assert stem[|Folder|..] == Prompt && Prompt[0] == 'A';
    assert HasNonDot(stem[LastWhere(stem, IsSep) + 1..]);
    SplitExtAppendExt(stem, ".png");
  }
}
