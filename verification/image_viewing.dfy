/**
 * ImageViewer as the object the engine drives: `Start` checks its references
 * and loads the persistent data directory, `ShowNextImage` moves the cursor
 * and paints the quad. Each method is proved against the rules of
 * ImageLoading.
 */
module ImageViewing {
  import opened Wrappers
  import opened ImageLoading

  /** The quad's Renderer, reduced to its material's `mainTexture` (None: nothing assigned yet). */
  class Renderer {
    var mainTexture: Option<Texture>

    constructor ()
      ensures mainTexture == None
    {
      mainTexture := None;
    }
  }

  /** A GameObject, reduced to what `GetComponent<Renderer>()` finds on it (null: no Renderer). */
  class GameObject {
    const renderer: Renderer?

    constructor (renderer: Renderer?)
      ensures this.renderer == renderer
    {
      this.renderer := renderer;
    }
  }

  class ImageViewer {
    /** Assigned in the inspector; may be missing. */
    var quadObject: GameObject?
    var imageTextures: seq<Texture>
    /** -1 until the first image is shown, then the index of the texture on display. */
    var currentImageIndex: int
    var quadRenderer: Renderer?

    /** The cursor is -1 or a valid index, and textures are only ever loaded once a Renderer was found. */
    ghost predicate Valid()
      reads this
    {
      && -1 <= currentImageIndex < |imageTextures|
      && (imageTextures != [] ==> quadRenderer != null)
    }

    /** The Renderer `Start` would find on the quad, as the set of objects it may paint. */
    function QuadRenderers(): set<Renderer>
      reads this
    {
      if quadObject != null && quadObject.renderer != null then {quadObject.renderer} else {}
    }

    /** The component before `Start`: nothing loaded, nothing shown. */
    constructor (quadObject: GameObject?)
      ensures Valid()
      ensures this.quadObject == quadObject
      ensures imageTextures == [] && currentImageIndex == -1 && quadRenderer == null
    {
      this.quadObject := quadObject;
      imageTextures := [];
      currentImageIndex := -1;
      quadRenderer := null;
    }

    /**
     * The engine's one call of `Start`, on a component that has loaded nothing:
     * without a quad or without a Renderer on it, it stops and stays inert;
     * otherwise it loads the directory and shows the first image, if any.
     */
    method Start(st: Storage, loadImage: seq<byte> -> bool)
      requires Valid() && imageTextures == []
      modifies this, QuadRenderers()
      ensures Valid()
      ensures quadObject == old(quadObject)
      ensures quadObject == null ==> imageTextures == [] && currentImageIndex == -1 && quadRenderer == old(quadRenderer)
      ensures quadObject != null ==> quadRenderer == quadObject.renderer
      ensures quadRenderer == null ==> imageTextures == [] && currentImageIndex == -1
      ensures quadObject != null && quadRenderer != null ==>
        && imageTextures == Decoded(st, loadImage, JpegFiles(st))
        && imageTextures == Decoded(st, loadImage, GetFiles(st, "*.jpg")) + Decoded(st, loadImage, GetFiles(st, "*.jpeg"))
        && (imageTextures == [] ==> currentImageIndex == -1 && unchanged(quadRenderer))
        && (imageTextures != [] ==> currentImageIndex == 0 && quadRenderer.mainTexture == Some(imageTextures[0]))
    {
      if quadObject == null {
        return;
      }
      quadRenderer := quadObject.renderer;
      if quadRenderer == null {
        return;
      }
      LoadImagesFromPersistentDataPath(st, loadImage);
      LoadedInPatternOrder(st, loadImage);
    }

    /**
     * Reads every `*.jpg` and then every `*.jpeg` file, appends a texture for
     * each one that decodes, skips the others, and then shows the next image.
     */
    method LoadImagesFromPersistentDataPath(st: Storage, loadImage: seq<byte> -> bool)
      requires Valid() && quadRenderer != null
      modifies this`imageTextures, this`currentImageIndex, quadRenderer
      ensures Valid()
      ensures quadRenderer == old(quadRenderer)
      ensures imageTextures == old(imageTextures) + Decoded(st, loadImage, JpegFiles(st))
      ensures imageTextures == old(imageTextures) + Decoded(st, loadImage, GetFiles(st, "*.jpg")) + Decoded(st, loadImage, GetFiles(st, "*.jpeg"))
      ensures imageTextures == [] ==> currentImageIndex == old(currentImageIndex) && unchanged(quadRenderer)
      ensures imageTextures != [] ==>
        && currentImageIndex == NextIndex(old(currentImageIndex), |imageTextures|)
        && quadRenderer.mainTexture == Some(imageTextures[currentImageIndex])
    {
      var jpegFiles := JpegFiles(st);
      var i := 0;
      while i < |jpegFiles|
        invariant 0 <= i <= |jpegFiles|
        invariant imageTextures == old(imageTextures) + Decoded(st, loadImage, jpegFiles[..i])
        invariant currentImageIndex == old(currentImageIndex)
        invariant unchanged(quadRenderer)
      {
        var filePath := jpegFiles[i];
        var imageData := st.readAllBytes(filePath);
        if loadImage(imageData) {
          imageTextures := imageTextures + [Texture(imageData)];
        }
        DecodedSnoc(st, loadImage, jpegFiles[..i], filePath);
        assert jpegFiles[..i + 1] == jpegFiles[..i] + [filePath];
        i := i + 1;
      }
      assert jpegFiles[..i] == jpegFiles;
      LoadedInPatternOrder(st, loadImage);
      ShowNextImage();
    }

    /**
     * With no textures, changes nothing; otherwise moves the cursor to the next
     * texture, wrapping after the last, and paints that texture on the quad.
     */
    method ShowNextImage()
      requires Valid()
      modifies this`currentImageIndex, quadRenderer
      ensures Valid()
      ensures imageTextures == old(imageTextures) && quadRenderer == old(quadRenderer)
      ensures imageTextures == [] ==> currentImageIndex == old(currentImageIndex) && (quadRenderer != null ==> unchanged(quadRenderer))
      ensures imageTextures != [] ==>
        && currentImageIndex == NextIndex(old(currentImageIndex), |imageTextures|)
        && quadRenderer.mainTexture == Some(imageTextures[currentImageIndex])
    {
      if |imageTextures| == 0 {
        return;
      }
      currentImageIndex := (currentImageIndex + 1) % |imageTextures|;
      quadRenderer.mainTexture := Some(imageTextures[currentImageIndex]);
    }
  }
}
