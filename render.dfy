/**
 * The retained-mode renderer of Render.kt: `GraphicsCanvas` keeps every drawn element in one
 * of four id-keyed tables and hands out ids from a counter; `SimpleGraphics` forwards to the
 * canvas once a window exists; `Animation` cycles through frame images on a clock.
 * Painting, windows and image decoding are not modelled: decoding a file is the function
 * `loadImage` given to the canvas, and clock readings are parameters.
 */
module Render {
  import opened Wrappers

  /** A `java.awt.Color`, as its red, green, blue and alpha components. */
  datatype Color = Color(red: int, green: int, blue: int, alpha: int)

  /** A decoded image; only its size is kept. */
  datatype Image = Image(width: int, height: int)

  /** `SimpleGraphics.ImageFilter`. */
  datatype ImageFilter = FilterNone | FilterAntialiasing

  /** `ElementType`. */
  datatype ElementType = TextKind | ImageKind | AnimationKind | RectKind

  datatype TextElement = TextElement(text: string, x: int, y: int, fontName: string, fontSize: int,
                                     color: Color, style: int, id: int)

  datatype ImageElement = ImageElement(path: string, x: int, y: int, filter: ImageFilter,
                                       scaleX: real, scaleY: real, rotation: real, id: int)

  datatype RectElement = RectElement(x: int, y: int, width: int, height: int, outlineColor: Color,
                                     isFilled: bool, fillColor: Color, strokeWidth: real, id: int)

  /** `ElementInfo`; `path` is null except for images. */
  datatype ElementInfo = ElementInfo(id: int, kind: ElementType, x: int, y: int,
                                     scaleX: real, scaleY: real, rotation: real, path: Option<string>)

  /** Position, scale and rotation of an animation. */
  datatype Placement = Placement(x: int, y: int, scaleX: real, scaleY: real, rotation: real)

  predicate Distinct<T(==)>(s: seq<T>)
  {
    forall i, j :: 0 <= i < j < |s| ==> s[i] != s[j]
  }

  /**
   * The paths among `frames` that are neither in `known` nor earlier in `frames`: the paths
   * `addAnimation` has to load, in the order it loads them.
   */
  function NewPaths<P(==,!new)>(known: set<P>, frames: seq<P>): (r: seq<P>)
    ensures forall p :: p in r <==> p in frames && p !in known
    ensures Distinct(r)
  {
    if frames == [] then []
    else
      var init, last := frames[..|frames| - 1], frames[|frames| - 1];
      assert frames == init + [last];
      NewPaths(known, init) + (if last in known || last in init then [] else [last])
  }

  /** The cache holds exactly the paths of the load log. */
  ghost predicate SameKeys<P(!new)>(images: map<P, Image>, loads: seq<P>)
  {
    forall p :: p in images <==> p in loads
  }

  /** Every cached image is what `loadImage` returned for its path. */
  ghost predicate FromLoader<P(!new)>(images: map<P, Image>, loadImage: P -> Image)
  {
    forall p :: p in images ==> images[p] == loadImage(p)
  }

  /** Each cached path was loaded exactly once, and the cache holds what `loadImage` returned. */
  ghost predicate Cached<P(!new)>(images: map<P, Image>, loads: seq<P>, loadImage: P -> Image)
  {
    Distinct(loads) && SameKeys(images, loads) && FromLoader(images, loadImage)
  }

  /** The cache holds the paths of `images0` and of `done`, and nothing else. */
  ghost predicate Covers<P(!new)>(images: map<P, Image>, images0: map<P, Image>, done: seq<P>)
  {
    forall p :: p in images <==> p in images0 || p in done
  }

  /** Every entry of `images0` is still in the cache, unchanged. */
  ghost predicate Extends<P(!new)>(images0: map<P, Image>, images: map<P, Image>)
  {
    forall p :: p in images0 ==> p in images && images[p] == images0[p]
  }

  /** The cache after preloading `done`, starting from `images0` and `loads0`. */
  ghost predicate Preloaded<P(!new)>(images0: map<P, Image>, loads0: seq<P>, images: map<P, Image>,
                                  loads: seq<P>, done: seq<P>, loadImage: P -> Image)
  {
    && Cached(images, loads, loadImage)
    && Covers(images, images0, done)
    && Extends(images0, images)
    && loads == loads0 + NewPaths(images0.Keys, done)
  }

  /** The cache after `addAnimation` has preloaded `frames` into `images0`, one frame at a time. */
  ghost function CacheAfter<P>(images0: map<P, Image>, frames: seq<P>, loadImage: P -> Image): map<P, Image>
  {
    if frames == [] then images0
    else
      var prev, f := CacheAfter(images0, frames[..|frames| - 1], loadImage), frames[|frames| - 1];
      if f in prev then prev else prev[f := loadImage(f)]
  }

  /** One more frame: it is loaded into the cache exactly when it is not there yet. */
  lemma CacheAfterStep<P>(images0: map<P, Image>, frames: seq<P>, i: int, loadImage: P -> Image)
    requires 0 <= i < |frames|
    ensures CacheAfter(images0, frames[..i + 1], loadImage) ==
      var prev := CacheAfter(images0, frames[..i], loadImage);
      if frames[i] in prev then prev else prev[frames[i] := loadImage(frames[i])]
  {
    assert frames[..i + 1][..i] == frames[..i];
  }

  /** A path is cached after preloading exactly when it was cached before or is one of the frames. */
  lemma {:induction false} CacheAfterHas<P>(images0: map<P, Image>, frames: seq<P>, p: P, loadImage: P -> Image)
    ensures p in CacheAfter(images0, frames, loadImage) <==> p in images0 || p in frames
  {
    if frames != [] {
      var i := |frames| - 1;
      assert frames == frames[..i] + [frames[i]];
      CacheAfterHas(images0, frames[..i], p, loadImage);
    }
  }

  /**
   * Preloading from a consistent cache gives a consistent cache that holds the old paths
   * and the frames, keeps the old entries, and logs exactly the new paths, each once.
   */
  lemma {:induction false} CacheAfterPreloaded<P(!new)>(images0: map<P, Image>, loads0: seq<P>, frames: seq<P>,
                                                        loadImage: P -> Image)
    requires Cached(images0, loads0, loadImage)
    ensures Preloaded(images0, loads0, CacheAfter(images0, frames, loadImage), loads0 + NewPaths(images0.Keys, frames),
                      frames, loadImage)
    decreases |frames|
  {
    if frames == [] {
      assert loads0 + [] == loads0;
    } else {
      var i := |frames| - 1;
      assert frames[..i + 1] == frames;
      CacheAfterPreloaded(images0, loads0, frames[..i], loadImage);
      CacheAfterStep(images0, frames, i, loadImage);
      var cache, log := CacheAfter(images0, frames[..i], loadImage), loads0 + NewPaths(images0.Keys, frames[..i]);
      if frames[i] in cache {
        PreloadSkip(images0, loads0, cache, log, frames, i, loadImage);
      } else {
        PreloadLoad(images0, loads0, cache, log, frames, i, loadImage);
      }
    }
  }

  /** A round of the preloading loop on a cached frame changes nothing and keeps `Preloaded`. */
  lemma PreloadSkip<P(!new)>(images0: map<P, Image>, loads0: seq<P>, images: map<P, Image>,
                             loads: seq<P>, frames: seq<P>, i: int, loadImage: P -> Image)
    requires 0 <= i < |frames| && Preloaded(images0, loads0, images, loads, frames[..i], loadImage)
    requires frames[i] in images
    ensures Preloaded(images0, loads0, images, loads, frames[..i + 1], loadImage)
  {
    NewPathsStep(images0.Keys, frames, i);
    CoversKnown(images, images0, frames, i);
  }

  /** A round of the preloading loop on an uncached frame loads it once and keeps `Preloaded`. */
  lemma PreloadLoad<P(!new)>(images0: map<P, Image>, loads0: seq<P>, images: map<P, Image>,
                             loads: seq<P>, frames: seq<P>, i: int, loadImage: P -> Image)
    requires 0 <= i < |frames| && Preloaded(images0, loads0, images, loads, frames[..i], loadImage)
    requires frames[i] !in images
    ensures Preloaded(images0, loads0, images[frames[i] := loadImage(frames[i])], loads + [frames[i]],
                      frames[..i + 1], loadImage)
  {
    var f := frames[i];
    NewPathsStep(images0.Keys, frames, i);
    CoversAdded(images, images0, frames, i, loadImage(f));
    CachedAdded(images, loads, f, loadImage);
    ExtendsAdded(images0, images, f, loadImage(f));
    assert f !in images0 && f !in frames[..i];
  }

  /** A frame already cached keeps `Covers` when it joins the preloaded prefix. */
  lemma CoversKnown<P(!new)>(images: map<P, Image>, images0: map<P, Image>, frames: seq<P>, i: int)
    requires 0 <= i < |frames| && frames[..i + 1] == frames[..i] + [frames[i]]
    requires Covers(images, images0, frames[..i]) && frames[i] in images
    ensures Covers(images, images0, frames[..i + 1])
  {
    assert forall p :: p in frames[..i] + [frames[i]] <==> p in frames[..i] || p == frames[i];
  }

  /** A frame just loaded keeps `Covers` when it joins the preloaded prefix. */
  lemma CoversAdded<P(!new)>(images: map<P, Image>, images0: map<P, Image>, frames: seq<P>, i: int, v: Image)
    requires 0 <= i < |frames| && frames[..i + 1] == frames[..i] + [frames[i]]
    requires Covers(images, images0, frames[..i])
    ensures Covers(images[frames[i] := v], images0, frames[..i + 1])
  {
    assert forall p :: p in frames[..i] + [frames[i]] <==> p in frames[..i] || p == frames[i];
  }

  /** Loading a path not cached yet, and logging it, keeps `Cached`. */
  lemma CachedAdded<P(!new)>(images: map<P, Image>, loads: seq<P>, f: P, loadImage: P -> Image)
    requires Cached(images, loads, loadImage) && f !in images
    ensures Cached(images[f := loadImage(f)], loads + [f], loadImage)
  {
    DistinctAppend(loads, f);
    assert forall p :: p in loads + [f] <==> p in loads || p == f;
  }

  /** Adding a path absent from `images0` keeps `Extends`. */
  lemma ExtendsAdded<P(!new)>(images0: map<P, Image>, images: map<P, Image>, f: P, v: Image)
    requires Extends(images0, images) && f !in images
    ensures Extends(images0, images[f := v])
  {
  }

  /** One more frame: the new paths of a prefix grow by that frame exactly when it is new. */
  lemma NewPathsStep<P(!new)>(known: set<P>, frames: seq<P>, i: int)
    requires 0 <= i < |frames|
    ensures frames[..i + 1] == frames[..i] + [frames[i]]
    ensures NewPaths(known, frames[..i + 1]) ==
      NewPaths(known, frames[..i]) + (if frames[i] in known || frames[i] in frames[..i] then [] else [frames[i]])
  {
    assert frames[..i + 1] == frames[..i] + [frames[i]];
    assert frames[..i + 1][..i] == frames[..i];
  }

  /** Removing a key that is not there leaves a map as it was. */
  lemma RemoveAbsent<K, V>(m: map<K, V>, k: K)
    ensures k !in m ==> m - {k} == m
  {
  }

  lemma DistinctAppend<T>(s: seq<T>, x: T)
    requires Distinct(s) && x !in s
    ensures Distinct(s + [x])
  {
  }

  /** `Animation`: a list of frame images shown in turn, each for more than `frameDelay` ms. */
  class Animation {
    const frames: seq<string>
    var frameDelay: int
    var currentFrame: nat
    var lastUpdateTime: int
    var x: int
    var y: int
    var filter: ImageFilter
    var scaleX: real
    var scaleY: real
    var rotation: real

    /** The frame index stays within the frame list (it is 0 when there are no frames). */
    ghost predicate Valid()
      reads this
    {
      currentFrame == 0 || currentFrame < |frames|
    }

    /** The position, scale and rotation the canvas paints this animation with. */
    function Pose(): Placement
      reads this
    {
      Placement(x, y, scaleX, scaleY, rotation)
    }

    /** A new animation; `now` is the clock reading (ms) at construction. */
    constructor (frames: seq<string>, frameDelay: int, now: int)
      ensures Valid() && this.frames == frames && this.frameDelay == frameDelay
      ensures currentFrame == 0 && lastUpdateTime == now
      ensures Pose() == Placement(0, 0, 1.0, 1.0, 0.0) && filter == FilterNone
    {
      this.frames := frames;
      this.frameDelay := frameDelay;
      currentFrame := 0;
      lastUpdateTime := now;
      x, y := 0, 0;
      filter := FilterNone;
      scaleX, scaleY, rotation := 1.0, 1.0, 0.0;
    }

    /**
     * `update`: advances to the next frame, wrapping around, only when more than `frameDelay`
     * ms passed since the last advance; returns the current frame. The source throws on an
     * empty frame list.
     */
    method Update(now: int) returns (frame: string)
      requires Valid() && |frames| > 0
      modifies this`currentFrame, this`lastUpdateTime
      ensures Valid() && currentFrame < |frames| && frame == frames[currentFrame]
      ensures now - old(lastUpdateTime) > frameDelay ==>
        currentFrame == (old(currentFrame) + 1) % |frames| && lastUpdateTime == now
      ensures now - old(lastUpdateTime) <= frameDelay ==>
        currentFrame == old(currentFrame) && lastUpdateTime == old(lastUpdateTime)
    {
      if now - lastUpdateTime > frameDelay {
        currentFrame := (currentFrame + 1) % |frames|;
        lastUpdateTime := now;
      }
      frame := frames[currentFrame];
    }

    method SetPosition(x: int, y: int)
      modifies this`x, this`y
      ensures Pose() == old(Pose()).(x := x, y := y)
    {
      this.x := x;
      this.y := y;
    }

    method SetScale(scaleX: real, scaleY: real)
      modifies this`scaleX, this`scaleY
      ensures Pose() == old(Pose()).(scaleX := scaleX, scaleY := scaleY)
    {
      this.scaleX := scaleX;
      this.scaleY := scaleY;
    }

    method SetRotation(angle: real)
      modifies this`rotation
      ensures Pose() == old(Pose()).(rotation := angle)
    {
      rotation := angle;
    }
  }

  /**
   * `GraphicsCanvas`: four id-keyed element tables, an id counter and a cache of loaded
   * images. `loads` records every call of `loadImage`, in order.
   */
  class GraphicsCanvas {
    const width: int
    const height: int
    const loadImage: string -> Image
    var images: map<string, Image>
    ghost var loads: seq<string>
    var textElements: map<int, TextElement>
    var imageElements: map<int, ImageElement>
    var animations: map<int, Animation>
    var rectElements: map<int, RectElement>
    var nextId: int
    var clearColor: Color

    /** Every id handed out so far that is still in a table. */
    ghost function Ids(): set<int>
      reads this
    {
      textElements.Keys + imageElements.Keys + animations.Keys + rectElements.Keys
    }

    /**
     * The tables are pairwise disjoint, hold only ids below `nextId`, and every element
     * record carries its own id.
     */
    ghost predicate TablesValid()
      reads this
    {
      && 0 <= nextId
      && textElements.Keys !! imageElements.Keys && textElements.Keys !! animations.Keys
      && textElements.Keys !! rectElements.Keys && imageElements.Keys !! animations.Keys
      && imageElements.Keys !! rectElements.Keys && animations.Keys !! rectElements.Keys
      && (forall id :: id in textElements ==> 0 <= id < nextId && textElements[id].id == id)
      && (forall id :: id in imageElements ==> 0 <= id < nextId && imageElements[id].id == id)
      && (forall id :: id in animations ==> 0 <= id < nextId)
      && (forall id :: id in rectElements ==> 0 <= id < nextId && rectElements[id].id == id)
    }

    /** Each cached path was loaded exactly once, and the cache holds what `loadImage` returned. */
    ghost predicate CacheValid()
      reads this
    {
      Cached(images, loads, loadImage)
    }

    ghost predicate Valid()
      reads this
    {
      TablesValid() && CacheValid()
    }

    constructor (width: int, height: int, loadImage: string -> Image)
      ensures Valid() && this.width == width && this.height == height && this.loadImage == loadImage
      ensures images == map[] && loads == [] && nextId == 0 && clearColor == Color(255, 255, 255, 255)
      ensures textElements == map[] && imageElements == map[] && animations == map[] && rectElements == map[]
    {
      this.width, this.height, this.loadImage := width, height, loadImage;
      images, loads := map[], [];
      textElements, imageElements, animations, rectElements := map[], map[], map[], map[];
      nextId := 0;
      clearColor := Color(255, 255, 255, 255);
    }

    /** `drawRichText`: a text element under a fresh id. */
    method DrawRichText(text: string, x: int, y: int, fontName: string, fontSize: int, color: Color, style: int)
      returns (id: int)
      requires Valid()
      modifies this
      ensures Valid() && id == old(nextId) && nextId == id + 1 && id !in old(Ids())
      ensures textElements == old(textElements)[id := TextElement(text, x, y, fontName, fontSize, color, style, id)]
      ensures imageElements == old(imageElements) && animations == old(animations) && rectElements == old(rectElements)
      ensures images == old(images) && loads == old(loads) && clearColor == old(clearColor)
    {
      id := nextId;
      nextId := nextId + 1;
      textElements := textElements[id := TextElement(text, x, y, fontName, fontSize, color, style, id)];
    }

    /** `drawImage`: loads the path unless it is cached, then adds an image element under a fresh id. */
    method DrawImage(path: string, x: int, y: int, filter: ImageFilter, scaleX: real, scaleY: real, rotation: real)
      returns (id: int)
      requires Valid()
      modifies this
      ensures Valid() && id == old(nextId) && nextId == id + 1 && id !in old(Ids())
      ensures imageElements == old(imageElements)[id := ImageElement(path, x, y, filter, scaleX, scaleY, rotation, id)]
      ensures textElements == old(textElements) && animations == old(animations) && rectElements == old(rectElements)
      ensures path in old(images) ==> images == old(images) && loads == old(loads)
      ensures path !in old(images) ==> images == old(images)[path := loadImage(path)] && loads == old(loads) + [path]
      ensures clearColor == old(clearColor)
    {
      if path !in images {
        var loaded := loadImage(path);
        images := images[path := loaded];
        loads := loads + [path];
      }
      id := nextId;
      nextId := nextId + 1;
      imageElements := imageElements[id := ImageElement(path, x, y, filter, scaleX, scaleY, rotation, id)];
    }

    /** `drawRect`: a rectangle element under a fresh id. */
    method DrawRect(x: int, y: int, width: int, height: int, outlineColor: Color, isFilled: bool,
                    fillColor: Color, strokeWidth: real)
      returns (id: int)
      requires Valid()
      modifies this
      ensures Valid() && id == old(nextId) && nextId == id + 1 && id !in old(Ids())
      ensures rectElements == old(rectElements)[id := RectElement(x, y, width, height, outlineColor, isFilled, fillColor, strokeWidth, id)]
      ensures textElements == old(textElements) && imageElements == old(imageElements) && animations == old(animations)
      ensures images == old(images) && loads == old(loads) && clearColor == old(clearColor)
    {
      id := nextId;
      nextId := nextId + 1;
      rectElements := rectElements[id := RectElement(x, y, width, height, outlineColor, isFilled, fillColor, strokeWidth, id)];
    }

    /** `addAnimation`: registers the animation under a fresh id and loads each frame path not yet cached. */
    method AddAnimation(animation: Animation) returns (id: int)
      requires Valid()
      modifies this
      ensures Valid() && id == old(nextId) && nextId == id + 1 && id !in old(Ids())
      ensures animations == old(animations)[id := animation]
      ensures textElements == old(textElements) && imageElements == old(imageElements) && rectElements == old(rectElements)
      ensures forall p :: p in images <==> p in old(images) || p in animation.frames
      ensures forall p :: p in old(images) ==> images[p] == old(images)[p]
      ensures loads == old(loads) + NewPaths(old(images).Keys, animation.frames)
      ensures clearColor == old(clearColor)
    {
      id := nextId;
      nextId := nextId + 1;
      animations := animations[id := animation];
      Preload(animation.frames);
    }

    /** The frame-preloading loop of `addAnimation`: loads every path not cached yet, once. */
    method Preload(frames: seq<string>)
      requires CacheValid()
      modifies this`images, this`loads
      ensures images == CacheAfter(old(images), frames, loadImage)
      ensures CacheValid()
      ensures Covers(images, old(images), frames) && Extends(old(images), images)
      ensures loads == old(loads) + NewPaths(old(images).Keys, frames)
    {
      var images0, cache := images, images;
      ghost var loads0, log := loads, loads;
      var i := 0;
      while i < |frames|
        invariant 0 <= i <= |frames|
        invariant cache == CacheAfter(images0, frames[..i], loadImage)
        invariant log == loads0 + NewPaths(images0.Keys, frames[..i])
      {
        CacheAfterStep(images0, frames, i, loadImage);
        NewPathsStep(images0.Keys, frames, i);
        CacheAfterHas(images0, frames[..i], frames[i], loadImage);
        if frames[i] !in cache {
          cache := cache[frames[i] := loadImage(frames[i])];
          log := log + [frames[i]];
        }
        i := i + 1;
      }
      assert frames[..i] == frames;
      CacheAfterPreloaded(images0, loads0, frames, loadImage);
      images, loads := cache, log;
    }

    /** `removeElement`: true iff the id is in some table; it is removed from that table only. */
    method RemoveElement(id: int) returns (removed: bool)
      requires Valid()
      modifies this
      ensures Valid() && removed == (id in old(Ids()))
      ensures textElements == old(textElements) - {id} && imageElements == old(imageElements) - {id}
      ensures animations == old(animations) - {id} && rectElements == old(rectElements) - {id}
      ensures nextId == old(nextId) && images == old(images) && loads == old(loads) && clearColor == old(clearColor)
    {
      RemoveAbsent(textElements, id);
      RemoveAbsent(imageElements, id);
      RemoveAbsent(animations, id);
      RemoveAbsent(rectElements, id);
      if id in textElements {
        textElements := textElements - {id};
        removed := true;
      } else if id in imageElements {
        imageElements := imageElements - {id};
        removed := true;
      } else if id in animations {
        animations := animations - {id};
        removed := true;
      } else if id in rectElements {
        rectElements := rectElements - {id};
        removed := true;
      } else {
        removed := false;
      }
    }

    /** `updateElementPosition`: moves the element with that id, of any kind; false for an unknown id. */
    method UpdateElementPosition(id: int, x: int, y: int) returns (updated: bool)
      requires Valid()
      modifies this, if id in animations then {animations[id]} else {}
      ensures Valid() && updated == (id in old(Ids()))
      ensures nextId == old(nextId) && images == old(images) && loads == old(loads) && clearColor == old(clearColor)
      ensures animations == old(animations)
      ensures textElements == if id in old(textElements) then old(textElements)[id := old(textElements)[id].(x := x, y := y)] else old(textElements)
      ensures imageElements == if id in old(imageElements) then old(imageElements)[id := old(imageElements)[id].(x := x, y := y)] else old(imageElements)
      ensures rectElements == if id in old(rectElements) then old(rectElements)[id := old(rectElements)[id].(x := x, y := y)] else old(rectElements)
      ensures id in animations ==>
        && animations[id].Pose() == old(animations[id].Pose()).(x := x, y := y)
        && animations[id].currentFrame == old(animations[id].currentFrame)
        && animations[id].lastUpdateTime == old(animations[id].lastUpdateTime)
    {
      if id in textElements {
        textElements := textElements[id := textElements[id].(x := x, y := y)];
        updated := true;
      } else if id in imageElements {
        imageElements := imageElements[id := imageElements[id].(x := x, y := y)];
        updated := true;
      } else if id in animations {
        animations[id].SetPosition(x, y);
        updated := true;
      } else if id in rectElements {
        rectElements := rectElements[id := rectElements[id].(x := x, y := y)];
        updated := true;
      } else {
        updated := false;
      }
    }

    /** `updateElementScale`: only images and animations have a scale; text and rect ids give false. */
    method UpdateElementScale(id: int, scaleX: real, scaleY: real) returns (updated: bool)
      requires Valid()
      modifies this, if id in animations then {animations[id]} else {}
      ensures Valid() && updated == (id in old(imageElements) || id in old(animations))
      ensures nextId == old(nextId) && images == old(images) && loads == old(loads) && clearColor == old(clearColor)
      ensures animations == old(animations) && textElements == old(textElements) && rectElements == old(rectElements)
      ensures imageElements == if id in old(imageElements) then old(imageElements)[id := old(imageElements)[id].(scaleX := scaleX, scaleY := scaleY)] else old(imageElements)
      ensures id in animations ==>
        && animations[id].Pose() == old(animations[id].Pose()).(scaleX := scaleX, scaleY := scaleY)
        && animations[id].currentFrame == old(animations[id].currentFrame)
        && animations[id].lastUpdateTime == old(animations[id].lastUpdateTime)
    {
      if id in imageElements {
        imageElements := imageElements[id := imageElements[id].(scaleX := scaleX, scaleY := scaleY)];
        updated := true;
      } else if id in animations {
        animations[id].SetScale(scaleX, scaleY);
        updated := true;
      } else {
        updated := false;
      }
    }

    /** `updateElementRotation`: only images and animations have a rotation; text and rect ids give false. */
    method UpdateElementRotation(id: int, rotation: real) returns (updated: bool)
      requires Valid()
      modifies this, if id in animations then {animations[id]} else {}
      ensures Valid() && updated == (id in old(imageElements) || id in old(animations))
      ensures nextId == old(nextId) && images == old(images) && loads == old(loads) && clearColor == old(clearColor)
      ensures animations == old(animations) && textElements == old(textElements) && rectElements == old(rectElements)
      ensures imageElements == if id in old(imageElements) then old(imageElements)[id := old(imageElements)[id].(rotation := rotation)] else old(imageElements)
      ensures id in animations ==>
        && animations[id].Pose() == old(animations[id].Pose()).(rotation := rotation)
        && animations[id].currentFrame == old(animations[id].currentFrame)
        && animations[id].lastUpdateTime == old(animations[id].lastUpdateTime)
    {
      if id in imageElements {
        imageElements := imageElements[id := imageElements[id].(rotation := rotation)];
        updated := true;
      } else if id in animations {
        animations[id].SetRotation(rotation);
        updated := true;
      } else {
        updated := false;
      }
    }

    /**
     * `updateElement`: applies the position when both coordinates are given, the scale when
     * both factors are given, and the rotation when given; true iff some applied update succeeded.
     */
    method UpdateElement(id: int, x: Option<int>, y: Option<int>, scaleX: Option<real>, scaleY: Option<real>,
                         rotation: Option<real>)
      returns (updated: bool)
      requires Valid()
      modifies this, if id in animations then {animations[id]} else {}
      ensures Valid()
      ensures updated == ((x.Some? && y.Some? && id in old(Ids()))
                          || (((scaleX.Some? && scaleY.Some?) || rotation.Some?) && (id in old(imageElements) || id in old(animations))))
      ensures nextId == old(nextId) && images == old(images) && loads == old(loads) && clearColor == old(clearColor)
      ensures animations == old(animations)
      ensures textElements == if x.Some? && y.Some? && id in old(textElements)
                              then old(textElements)[id := old(textElements)[id].(x := x.value, y := y.value)]
                              else old(textElements)
      ensures rectElements == if x.Some? && y.Some? && id in old(rectElements)
                              then old(rectElements)[id := old(rectElements)[id].(x := x.value, y := y.value)]
                              else old(rectElements)
      ensures imageElements == if id in old(imageElements)
                               then old(imageElements)[id := Retouched(old(imageElements)[id], x, y, scaleX, scaleY, rotation)]
                               else old(imageElements)
      ensures id in animations ==>
        animations[id].Pose() == Replaced(old(animations[id].Pose()), x, y, scaleX, scaleY, rotation)
    {
      updated := false;
      if x.Some? && y.Some? {
        var ok := UpdateElementPosition(id, x.value, y.value);
        updated := ok || updated;
      }
      if scaleX.Some? && scaleY.Some? {
        var ok := UpdateElementScale(id, scaleX.value, scaleY.value);
        updated := ok || updated;
      }
      if rotation.Some? {
        var ok := UpdateElementRotation(id, rotation.value);
        updated := ok || updated;
      }
    }

    /** `getElementIds`: the ids of one kind, in the order they were handed out. */
    method GetElementIds(kind: ElementType) returns (ids: seq<int>)
      requires Valid()
      ensures forall id :: id in ids <==> id in Table(kind)
      ensures forall i, j :: 0 <= i < j < |ids| ==> ids[i] < ids[j]
    {
      var keys := Table(kind);
      ids := [];
      var i := 0;
      while i < nextId
        invariant 0 <= i <= nextId
        invariant forall id :: id in ids <==> id in keys && id < i
        invariant forall k :: 0 <= k < |ids| ==> ids[k] < i
        invariant forall a, b :: 0 <= a < b < |ids| ==> ids[a] < ids[b]
      {
        if i in keys {
          ids := ids + [i];
        }
        i := i + 1;
      }
    }

    /** The key set of the table for one element kind. */
    function Table(kind: ElementType): set<int>
      reads this
    {
      match kind
      case TextKind => textElements.Keys
      case ImageKind => imageElements.Keys
      case AnimationKind => animations.Keys
      case RectKind => rectElements.Keys
    }

    /** `getElementInfo`: a description of a text, image or animation element; null for rects and unknown ids. */
    function GetElementInfo(id: int): (r: Option<ElementInfo>)
      reads this, animations.Values
      ensures r.None? <==> id !in textElements && id !in imageElements && id !in animations
      ensures r.Some? ==> r.value.id == id
      ensures r.Some? && id in textElements ==> r.value == ElementInfo(id, TextKind, textElements[id].x, textElements[id].y, 1.0, 1.0, 0.0, None)
      ensures r.Some? && r.value.kind == ImageKind ==> id in imageElements && r.value.path == Some(imageElements[id].path)
      ensures r.Some? && r.value.kind == AnimationKind ==> id in animations && r.value.path.None?
    {
      if id in textElements then
        var e := textElements[id];
        Some(ElementInfo(id, TextKind, e.x, e.y, 1.0, 1.0, 0.0, None))
      else if id in imageElements then
        var e := imageElements[id];
        Some(ElementInfo(id, ImageKind, e.x, e.y, e.scaleX, e.scaleY, e.rotation, Some(e.path)))
      else if id in animations then
        var a := animations[id];
        Some(ElementInfo(id, AnimationKind, a.x, a.y, a.scaleX, a.scaleY, a.rotation, None))
      else
        None
    }

    /** `clearAllElements`: empties the text, image and animation tables; rectangles stay. */
    method ClearAllElements()
      requires Valid()
      modifies this
      ensures Valid()
      ensures textElements == map[] && imageElements == map[] && animations == map[]
      ensures rectElements == old(rectElements) && nextId == old(nextId)
      ensures images == old(images) && loads == old(loads) && clearColor == old(clearColor)
    {
      textElements := map[];
      imageElements := map[];
      animations := map[];
    }
  }

  /**
   * `SimpleGraphics`: the facade the engine exposes. Until `createWindow` builds the canvas,
   * draw calls answer -1, remove and update calls answer false, and queries answer empty.
   */
  class SimpleGraphics {
    var canvas: GraphicsCanvas?

    constructor ()
      ensures canvas == null
    {
      canvas := null;
    }

    /** The part of `createWindow` that concerns elements: a fresh, empty canvas. */
    method CreateWindow(width: int, height: int, loadImage: string -> Image)
      modifies this
      ensures canvas != null && fresh(canvas) && canvas.Valid()
      ensures canvas.nextId == 0 && canvas.Ids() == {} && canvas.images == map[]
    {
      canvas := new GraphicsCanvas(width, height, loadImage);
    }

    method DrawRichText(text: string, x: int, y: int, fontName: string, fontSize: int, color: Color, style: int)
      returns (id: int)
      requires canvas != null ==> canvas.Valid()
      modifies canvas
      ensures canvas == null ==> id == -1
      ensures canvas != null ==>
        && canvas.Valid() && id == old(canvas.nextId) && canvas.nextId == id + 1
        && canvas.textElements == old(canvas.textElements)[id := TextElement(text, x, y, fontName, fontSize, color, style, id)]
        && canvas.imageElements == old(canvas.imageElements) && canvas.animations == old(canvas.animations)
        && canvas.rectElements == old(canvas.rectElements)
        && canvas.images == old(canvas.images) && canvas.loads == old(canvas.loads) && canvas.clearColor == old(canvas.clearColor)
    {
      if canvas == null {
        id := -1;
      } else {
        id := canvas.DrawRichText(text, x, y, fontName, fontSize, color, style);
      }
    }

    method DrawImage(path: string, x: int, y: int, filter: ImageFilter, scaleX: real, scaleY: real, rotation: real)
      returns (id: int)
      requires canvas != null ==> canvas.Valid()
      modifies canvas
      ensures canvas == null ==> id == -1
      ensures canvas != null ==>
        && canvas.Valid() && id == old(canvas.nextId) && canvas.nextId == id + 1
        && canvas.imageElements == old(canvas.imageElements)[id := ImageElement(path, x, y, filter, scaleX, scaleY, rotation, id)]
        && canvas.textElements == old(canvas.textElements) && canvas.animations == old(canvas.animations)
        && canvas.rectElements == old(canvas.rectElements)
        && (path in old(canvas.images) ==> canvas.images == old(canvas.images) && canvas.loads == old(canvas.loads))
        && (path !in old(canvas.images) ==>
              canvas.images == old(canvas.images)[path := canvas.loadImage(path)] && canvas.loads == old(canvas.loads) + [path])
        && canvas.clearColor == old(canvas.clearColor)
    {
      if canvas == null {
        id := -1;
      } else {
        id := canvas.DrawImage(path, x, y, filter, scaleX, scaleY, rotation);
      }
    }

    method DrawRect(x: int, y: int, width: int, height: int, outlineColor: Color, isFilled: bool,
                    fillColor: Color, strokeWidth: real)
      returns (id: int)
      requires canvas != null ==> canvas.Valid()
      modifies canvas
      ensures canvas == null ==> id == -1
      ensures canvas != null ==>
        && canvas.Valid() && id == old(canvas.nextId) && canvas.nextId == id + 1
        && canvas.rectElements == old(canvas.rectElements)[id := RectElement(x, y, width, height, outlineColor, isFilled, fillColor, strokeWidth, id)]
        && canvas.textElements == old(canvas.textElements) && canvas.imageElements == old(canvas.imageElements)
        && canvas.animations == old(canvas.animations)
        && canvas.images == old(canvas.images) && canvas.loads == old(canvas.loads) && canvas.clearColor == old(canvas.clearColor)
    {
      if canvas == null {
        id := -1;
      } else {
        id := canvas.DrawRect(x, y, width, height, outlineColor, isFilled, fillColor, strokeWidth);
      }
    }

    method AddAnimation(animation: Animation) returns (id: int)
      requires canvas != null ==> canvas.Valid()
      modifies canvas
      ensures canvas == null ==> id == -1
      ensures canvas != null ==>
        && canvas.Valid() && id == old(canvas.nextId) && canvas.nextId == id + 1
        && canvas.animations == old(canvas.animations)[id := animation]
        && canvas.textElements == old(canvas.textElements) && canvas.imageElements == old(canvas.imageElements)
        && canvas.rectElements == old(canvas.rectElements)
        && (forall p :: p in canvas.images <==> p in old(canvas.images) || p in animation.frames)
        && (forall p :: p in old(canvas.images) ==> canvas.images[p] == old(canvas.images)[p])
        && canvas.loads == old(canvas.loads) + NewPaths(old(canvas.images).Keys, animation.frames)
        && canvas.clearColor == old(canvas.clearColor)
    {
      if canvas == null {
        id := -1;
      } else {
        id := canvas.AddAnimation(animation);
      }
    }

    method RemoveElement(id: int) returns (removed: bool)
      requires canvas != null ==> canvas.Valid()
      modifies canvas
      ensures canvas == null ==> !removed
      ensures canvas != null ==>
        && canvas.Valid() && removed == (id in old(canvas.Ids()))
        && canvas.textElements == old(canvas.textElements) - {id} && canvas.imageElements == old(canvas.imageElements) - {id}
        && canvas.animations == old(canvas.animations) - {id} && canvas.rectElements == old(canvas.rectElements) - {id}
        && canvas.nextId == old(canvas.nextId) && canvas.images == old(canvas.images)
        && canvas.loads == old(canvas.loads) && canvas.clearColor == old(canvas.clearColor)
    {
      if canvas == null {
        removed := false;
      } else {
        removed := canvas.RemoveElement(id);
      }
    }

    method UpdateElementPosition(id: int, x: int, y: int) returns (updated: bool)
      requires canvas != null ==> canvas.Valid()
      modifies canvas, if canvas != null && id in canvas.animations then {canvas.animations[id]} else {}
      ensures canvas == null ==> !updated
      ensures canvas != null ==>
        && canvas.Valid() && updated == (id in old(canvas.Ids()))
        && canvas.nextId == old(canvas.nextId) && canvas.images == old(canvas.images)
        && canvas.loads == old(canvas.loads) && canvas.clearColor == old(canvas.clearColor)
        && canvas.animations == old(canvas.animations)
        && canvas.textElements == (if id in old(canvas.textElements) then old(canvas.textElements)[id := old(canvas.textElements)[id].(x := x, y := y)] else old(canvas.textElements))
        && canvas.imageElements == (if id in old(canvas.imageElements) then old(canvas.imageElements)[id := old(canvas.imageElements)[id].(x := x, y := y)] else old(canvas.imageElements))
        && canvas.rectElements == (if id in old(canvas.rectElements) then old(canvas.rectElements)[id := old(canvas.rectElements)[id].(x := x, y := y)] else old(canvas.rectElements))
        && (id in canvas.animations ==> canvas.animations[id].Pose() == old(canvas.animations[id].Pose()).(x := x, y := y))
    {
      if canvas == null {
        updated := false;
      } else {
        updated := canvas.UpdateElementPosition(id, x, y);
      }
    }

    method UpdateElementScale(id: int, scaleX: real, scaleY: real) returns (updated: bool)
      requires canvas != null ==> canvas.Valid()
      modifies canvas, if canvas != null && id in canvas.animations then {canvas.animations[id]} else {}
      ensures canvas == null ==> !updated
      ensures canvas != null ==>
        && canvas.Valid() && updated == (id in old(canvas.imageElements) || id in old(canvas.animations))
        && canvas.nextId == old(canvas.nextId) && canvas.images == old(canvas.images)
        && canvas.loads == old(canvas.loads) && canvas.clearColor == old(canvas.clearColor)
        && canvas.animations == old(canvas.animations)
        && canvas.textElements == old(canvas.textElements) && canvas.rectElements == old(canvas.rectElements)
        && canvas.imageElements == (if id in old(canvas.imageElements) then old(canvas.imageElements)[id := old(canvas.imageElements)[id].(scaleX := scaleX, scaleY := scaleY)] else old(canvas.imageElements))
        && (id in canvas.animations ==> canvas.animations[id].Pose() == old(canvas.animations[id].Pose()).(scaleX := scaleX, scaleY := scaleY))
    {
      if canvas == null {
        updated := false;
      } else {
        updated := canvas.UpdateElementScale(id, scaleX, scaleY);
      }
    }

    method UpdateElementRotation(id: int, rotation: real) returns (updated: bool)
      requires canvas != null ==> canvas.Valid()
      modifies canvas, if canvas != null && id in canvas.animations then {canvas.animations[id]} else {}
      ensures canvas == null ==> !updated
      ensures canvas != null ==>
        && canvas.Valid() && updated == (id in old(canvas.imageElements) || id in old(canvas.animations))
        && canvas.nextId == old(canvas.nextId) && canvas.images == old(canvas.images)
        && canvas.loads == old(canvas.loads) && canvas.clearColor == old(canvas.clearColor)
        && canvas.animations == old(canvas.animations)
        && canvas.textElements == old(canvas.textElements) && canvas.rectElements == old(canvas.rectElements)
        && canvas.imageElements == (if id in old(canvas.imageElements) then old(canvas.imageElements)[id := old(canvas.imageElements)[id].(rotation := rotation)] else old(canvas.imageElements))
        && (id in canvas.animations ==> canvas.animations[id].Pose() == old(canvas.animations[id].Pose()).(rotation := rotation))
    {
      if canvas == null {
        updated := false;
      } else {
        updated := canvas.UpdateElementRotation(id, rotation);
      }
    }

    method UpdateElement(id: int, x: Option<int>, y: Option<int>, scaleX: Option<real>, scaleY: Option<real>,
                         rotation: Option<real>)
      returns (updated: bool)
      requires canvas != null ==> canvas.Valid()
      modifies canvas, if canvas != null && id in canvas.animations then {canvas.animations[id]} else {}
      ensures canvas == null ==> !updated
      ensures canvas != null ==>
        && canvas.Valid()
        && updated == ((x.Some? && y.Some? && id in old(canvas.Ids()))
                       || (((scaleX.Some? && scaleY.Some?) || rotation.Some?) && (id in old(canvas.imageElements) || id in old(canvas.animations))))
        && canvas.nextId == old(canvas.nextId) && canvas.images == old(canvas.images)
        && canvas.loads == old(canvas.loads) && canvas.clearColor == old(canvas.clearColor)
        && canvas.animations == old(canvas.animations)
        && canvas.textElements == (if x.Some? && y.Some? && id in old(canvas.textElements)
                                   then old(canvas.textElements)[id := old(canvas.textElements)[id].(x := x.value, y := y.value)]
                                   else old(canvas.textElements))
        && canvas.rectElements == (if x.Some? && y.Some? && id in old(canvas.rectElements)
                                   then old(canvas.rectElements)[id := old(canvas.rectElements)[id].(x := x.value, y := y.value)]
                                   else old(canvas.rectElements))
        && canvas.imageElements == (if id in old(canvas.imageElements)
                                    then old(canvas.imageElements)[id := Retouched(old(canvas.imageElements)[id], x, y, scaleX, scaleY, rotation)]
                                    else old(canvas.imageElements))
        && (id in canvas.animations ==>
              canvas.animations[id].Pose() == Replaced(old(canvas.animations[id].Pose()), x, y, scaleX, scaleY, rotation))
    {
      if canvas == null {
        updated := false;
      } else {
        updated := canvas.UpdateElement(id, x, y, scaleX, scaleY, rotation);
      }
    }

    method GetElementIds(kind: ElementType) returns (ids: seq<int>)
      requires canvas != null ==> canvas.Valid()
      ensures canvas == null ==> ids == []
      ensures canvas != null ==> forall id :: id in ids <==> id in canvas.Table(kind)
      ensures forall i, j :: 0 <= i < j < |ids| ==> ids[i] < ids[j]
    {
      if canvas == null {
        ids := [];
      } else {
        ids := canvas.GetElementIds(kind);
      }
    }

    function GetElementInfo(id: int): (r: Option<ElementInfo>)
      reads this, canvas, if canvas != null then canvas.animations.Values else {}
      ensures canvas == null ==> r.None?
      ensures canvas != null ==> r == canvas.GetElementInfo(id)
    {
      if canvas == null then None else canvas.GetElementInfo(id)
    }

    /** `clear`: sets the background colour (the repaint request is not modelled). */
    method Clear(color: Color)
      requires canvas != null ==> canvas.Valid()
      modifies canvas
      ensures canvas != null ==>
        && canvas.Valid() && canvas.clearColor == color
        && canvas.textElements == old(canvas.textElements) && canvas.imageElements == old(canvas.imageElements)
        && canvas.animations == old(canvas.animations) && canvas.rectElements == old(canvas.rectElements)
        && canvas.nextId == old(canvas.nextId) && canvas.images == old(canvas.images) && canvas.loads == old(canvas.loads)
    {
      if canvas != null {
        canvas.clearColor := color;
      }
    }

    method ClearAllElements()
      requires canvas != null ==> canvas.Valid()
      modifies canvas
      ensures canvas != null ==>
        && canvas.Valid()
        && canvas.textElements == map[] && canvas.imageElements == map[] && canvas.animations == map[]
        && canvas.rectElements == old(canvas.rectElements) && canvas.nextId == old(canvas.nextId)
        && canvas.images == old(canvas.images) && canvas.loads == old(canvas.loads) && canvas.clearColor == old(canvas.clearColor)
    {
      if canvas != null {
        canvas.ClearAllElements();
      }
    }
  }

  /** An image element after `updateElement`'s position, scale and rotation steps. */
  function Retouched(e: ImageElement, x: Option<int>, y: Option<int>, scaleX: Option<real>,
                     scaleY: Option<real>, rotation: Option<real>): ImageElement
  {
    var moved := if x.Some? && y.Some? then e.(x := x.value, y := y.value) else e;
    var scaled := if scaleX.Some? && scaleY.Some? then moved.(scaleX := scaleX.value, scaleY := scaleY.value) else moved;
    if rotation.Some? then scaled.(rotation := rotation.value) else scaled
  }

  /** An animation's placement after `updateElement`'s position, scale and rotation steps. */
  function Replaced(p: Placement, x: Option<int>, y: Option<int>, scaleX: Option<real>,
                    scaleY: Option<real>, rotation: Option<real>): Placement
  {
    var moved := if x.Some? && y.Some? then p.(x := x.value, y := y.value) else p;
    var scaled := if scaleX.Some? && scaleY.Some? then moved.(scaleX := scaleX.value, scaleY := scaleY.value) else moved;
    if rotation.Some? then scaled.(rotation := rotation.value) else scaled
  }
}
