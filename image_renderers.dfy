/** The OpenGL enumerants the image renderers choose between (GLES2/gl2.h). */
module GlFormats {
  const GL_UNSIGNED_BYTE: nat := 0x1401
  const GL_RGB: nat := 0x1907
  const GL_RGBA: nat := 0x1908
  const GL_UNSIGNED_SHORT_5_6_5: nat := 0x8363
  const GL_RGB565: nat := 0x8D62
}

/** BaseImageRenderer (renderers/baseimagerenderer.cpp): the texture format
    state chosen from the core's pixel format, and the 0RGB1555 conversion
    the ES3 renderer applies before uploading a frame. */
module BaseImageRenderer {
  import opened Libretro
  import opened GlFormats
  import PixelConversion

  /** What setPixelFormat chooses for a pixel format: XRGB8888 is uploaded as
      RGBA bytes with red and blue swapped by the GPU; every other value,
      known or not, is uploaded as RGB565 words. */
  datatype TextureFormat = TextureFormat(
    internalFormat: nat, format: nat, glType: nat, bytesPerPixel: nat, swapRedAndBlue: bool)

  function TextureFormatFor(pixelFormat: int): (t: TextureFormat)
    ensures t.bytesPerPixel == (if pixelFormat == PIXEL_FORMAT_XRGB8888 then 4 else 2)
    ensures t.swapRedAndBlue <==> pixelFormat == PIXEL_FORMAT_XRGB8888
    ensures t.glType == (if t.bytesPerPixel == 4 then GL_UNSIGNED_BYTE else GL_UNSIGNED_SHORT_5_6_5)
  {
    if pixelFormat == PIXEL_FORMAT_XRGB8888 then
      TextureFormat(GL_RGBA, GL_RGBA, GL_UNSIGNED_BYTE, 4, true)
    else
      TextureFormat(GL_RGB565, GL_RGB, GL_UNSIGNED_SHORT_5_6_5, 2, false)
  }

  /** The three libretro formats map to exactly two texture formats: 0RGB1555
      shares RGB565's upload, which is why its words are converted first. */
  lemma {:induction false} OnlyTwoTextureFormats(pixelFormat: int)
    ensures TextureFormatFor(pixelFormat) == TextureFormatFor(PIXEL_FORMAT_XRGB8888) ||
            TextureFormatFor(pixelFormat) == TextureFormatFor(PIXEL_FORMAT_RGB565)
    ensures TextureFormatFor(PIXEL_FORMAT_0RGB1555) == TextureFormatFor(PIXEL_FORMAT_RGB565)
    ensures TextureFormatFor(PIXEL_FORMAT_XRGB8888) != TextureFormatFor(PIXEL_FORMAT_RGB565)
  {
    if pixelFormat != PIXEL_FORMAT_XRGB8888 {
      assert TextureFormatFor(pixelFormat) == TextureFormatFor(PIXEL_FORMAT_RGB565);
    }
  }

  class BaseImageRenderer {
    var pixelFormat: int
    var glInternalFormat: nat
    var glFormat: nat
    var glType: nat
    var bytesPerPixel: nat
    var swapRedAndBlueChannels: bool

    /** The texture format the fields currently describe. */
    function Format(): TextureFormat
      reads this
    {
      TextureFormat(glInternalFormat, glFormat, glType, bytesPerPixel, swapRedAndBlueChannels)
    }

    /** An image renderer exposes no framebuffer of its own. */
    method GetFramebuffer() returns (framebuffer: nat)
      ensures framebuffer == 0
    {
      return 0;
    }

    /** Stores the format and the texture settings chosen for it. */
    method SetPixelFormat(newPixelFormat: int)
      modifies this
      ensures pixelFormat == newPixelFormat
      ensures Format() == TextureFormatFor(newPixelFormat)
    {
      pixelFormat := newPixelFormat;
      var t := TextureFormatFor(newPixelFormat);
      glInternalFormat, glFormat, glType := t.internalFormat, t.format, t.glType;
      bytesPerPixel, swapRedAndBlueChannels := t.bytesPerPixel, t.swapRedAndBlue;
    }

    /** Converts height * pitch / bytesPerPixel words of the frame in place. */
    method ConvertDataFrom0RGB1555(data: array<bv16>, width: nat, height: nat, pitch: nat)
      requires bytesPerPixel > 0 && height * pitch / bytesPerPixel <= data.Length
      modifies data
      ensures var count := height * pitch / bytesPerPixel;
        (forall j :: 0 <= j < count ==> data[j] == PixelConversion.From0RGB1555(old(data[j]))) &&
        (forall j :: count <= j < data.Length ==> data[j] == old(data[j]))
    {
      PixelConversion.Convert0RGB1555Words(data, height * pitch / bytesPerPixel);
    }
  }
}

/** ImageRendererES2 (renderers/es2/imagerendereres2.cpp): converts each
    frame in place to a format GLES2 can upload and uploads it, whole or row
    by row. */
module ImageRendererES2 {
  import opened Libretro
  import opened GlFormats
  import PixelConversion

  /** The texture calls onNewFrame makes: a reallocation when the frame size
      changed, and sub-image uploads of `rows` rows starting at row `y`,
      read from `byteOffset` in the frame. */
  datatype TextureCall =
    | TexImage(width: nat, height: nat)
    | TexSubImage(y: nat, width: nat, rows: nat, byteOffset: nat)

  /** The uploads of onNewFrame: one call for the whole frame when rows are
      not padded (bytesPerPixel * width == pitch), otherwise one call per
      row i, reading from offset i * pitch. */
  function UploadCalls(bytesPerPixel: nat, width: nat, height: nat, pitch: nat): (calls: seq<TextureCall>)
    ensures bytesPerPixel * width == pitch ==> calls == [TexSubImage(0, width, height, 0)]
    ensures bytesPerPixel * width != pitch ==>
      |calls| == height &&
      forall i :: 0 <= i < height ==> calls[i] == TexSubImage(i, width, 1, i * pitch)
  {
    if bytesPerPixel * width == pitch then [TexSubImage(0, width, height, 0)]
    else seq(height, i requires 0 <= i < height => TexSubImage(i, width, 1, i * pitch))
  }

  /** Row r of the frame is among the rows some call uploads. */
  predicate RowUploaded(calls: seq<TextureCall>, r: nat)
  {
    exists k :: 0 <= k < |calls| && calls[k].TexSubImage? && calls[k].y <= r < calls[k].y + calls[k].rows
  }

  /** Padded or not, the uploads cover the frame: every call reads its rows
      from their own place in the frame (row y at y * pitch), the calls go
      down the frame without overlapping, and every row is uploaded. */
  lemma UploadsCoverFrame(bytesPerPixel: nat, width: nat, height: nat, pitch: nat)
    ensures var calls := UploadCalls(bytesPerPixel, width, height, pitch);
      (forall k :: 0 <= k < |calls| ==>
        calls[k].TexSubImage? && calls[k].width == width &&
        calls[k].byteOffset == calls[k].y * pitch && calls[k].y + calls[k].rows <= height) &&
      (forall k, l :: 0 <= k < l < |calls| ==> calls[k].y + calls[k].rows <= calls[l].y) &&
      (forall r :: 0 <= r < height ==> RowUploaded(calls, r))
  {
    var calls := UploadCalls(bytesPerPixel, width, height, pitch);
    forall r | 0 <= r < height
      ensures RowUploaded(calls, r)
    {
      if bytesPerPixel * width == pitch {
        assert calls[0].y <= r < calls[0].y + calls[0].rows;
      } else {
        assert calls[r].y <= r < calls[r].y + calls[r].rows;
      }
    }
  }

  /** The part of a shader chain this renderer reads; the rest of the chain
      is ignored by it. */
  datatype ShaderChain = ShaderChain(linearTexture: bool)

  /** The formats setPixelFormat chooses: (internal format, format, type,
      bytes per pixel). Unlike the base renderer, no red/blue swap flag:
      this renderer swaps the bytes itself. */
  function TextureSettingsFor(pixelFormat: int): (s: (nat, nat, nat, nat))
    ensures s.3 == (if pixelFormat == PIXEL_FORMAT_XRGB8888 then 4 else 2)
    ensures s.0 == s.1 == (if s.3 == 4 then GL_RGBA else GL_RGB)
    ensures s.2 == (if s.3 == 4 then GL_UNSIGNED_BYTE else GL_UNSIGNED_SHORT_5_6_5)
  {
    if pixelFormat == PIXEL_FORMAT_XRGB8888 then (GL_RGBA, GL_RGBA, GL_UNSIGNED_BYTE, 4)
    else (GL_RGB, GL_RGB, GL_UNSIGNED_SHORT_5_6_5, 2)
  }

  class ImageRendererES2 {
    var pixelFormat: int
    var bytesPerPixel: nat
    var glType: nat
    var glInternalFormat: nat
    var glFormat: nat
    var linear: bool
    var currentTexture: nat
    var lastFrameSize: (int, int)

    /** bytesPerPixel divides the frame size, so it is never 0. */
    ghost predicate Valid()
      reads this
    {
      bytesPerPixel > 0
    }

    /** The field initialisers of the class; `texture` is the name
        glGenTextures hands out. */
    constructor (texture: nat)
      ensures Valid()
      ensures pixelFormat == PIXEL_FORMAT_RGB565 && bytesPerPixel == 1
      ensures glType == 0 && glInternalFormat == 0 && glFormat == 0
      ensures !linear && currentTexture == texture && lastFrameSize == (0, 0)
    {
      pixelFormat := PIXEL_FORMAT_RGB565;
      bytesPerPixel := 1;
      glType, glInternalFormat, glFormat := 0, 0, 0;
      linear := false;
      currentTexture := texture;
      lastFrameSize := (0, 0);
    }

    method GetTexture() returns (texture: nat)
      ensures texture == currentTexture
    {
      return currentTexture;
    }

    /** An image renderer exposes no framebuffer of its own. */
    method GetFramebuffer() returns (framebuffer: nat)
      ensures framebuffer == 0
    {
      return 0;
    }

    /** Frames are drawn from the texture, not inside the video callback. */
    method RendersInVideoCallback() returns (inCallback: bool)
      ensures !inCallback
    {
      return false;
    }

    /** Of a shader chain only the linear-filtering flag is kept. */
    method SetShaders(shaders: ShaderChain)
      modifies this`linear
      ensures linear == shaders.linearTexture
    {
      linear := shaders.linearTexture;
    }

    method SetPixelFormat(newPixelFormat: int)
      modifies this`pixelFormat, this`glInternalFormat, this`glFormat, this`glType, this`bytesPerPixel
      ensures Valid()
      ensures pixelFormat == newPixelFormat
      ensures (glInternalFormat, glFormat, glType, bytesPerPixel) == TextureSettingsFor(newPixelFormat)
    {
      pixelFormat := newPixelFormat;
      var s := TextureSettingsFor(newPixelFormat);
      glInternalFormat, glFormat, glType, bytesPerPixel := s.0, s.1, s.2, s.3;
    }

    /** Converts height * pitch / bytesPerPixel words of the frame in place. */
    method ConvertDataFrom0RGB1555(data: array<bv16>, width: nat, height: nat, pitch: nat)
      requires Valid() && height * pitch / bytesPerPixel <= data.Length
      modifies data
      ensures var count := height * pitch / bytesPerPixel;
        (forall j :: 0 <= j < count ==> data[j] == PixelConversion.From0RGB1555(old(data[j]))) &&
        (forall j :: count <= j < data.Length ==> data[j] == old(data[j]))
    {
      PixelConversion.Convert0RGB1555Words(data, height * pitch / bytesPerPixel);
    }

    /** The upload loop of onNewFrame. */
    method Uploads(width: nat, height: nat, pitch: nat) returns (calls: seq<TextureCall>)
      ensures calls == UploadCalls(bytesPerPixel, width, height, pitch)
    {
      if bytesPerPixel * width == pitch {
        return [TexSubImage(0, width, height, 0)];
      }
      calls := [];
      var i := 0;
      while i < height
        invariant i <= height && |calls| == i
        invariant forall k :: 0 <= k < i ==> calls[k] == TexSubImage(k, width, 1, k * pitch)
      {
        calls := calls + [TexSubImage(i, width, 1, i * pitch)];
        i := i + 1;
      }
    }

    /** onNewFrame. The frame memory is given in the two views the renderer
        reads it through: `bytes` for XRGB8888, whose red and blue bytes are
        swapped over pitch * height bytes, and `words` for 0RGB1555, whose
        words are converted; RGB565 frames are left as they are. The texture
        is reallocated when the frame size changed, then uploaded. */
    method OnNewFrame(bytes: array<bv8>, words: array<bv16>, width: nat, height: nat, pitch: nat)
      returns (calls: seq<TextureCall>)
      requires Valid()
      requires pixelFormat == PIXEL_FORMAT_XRGB8888 ==> 4 <= pitch * height <= bytes.Length
      requires pixelFormat == PIXEL_FORMAT_0RGB1555 ==> height * pitch / bytesPerPixel <= words.Length
      modifies bytes, words, this`lastFrameSize
      ensures pixelFormat == PIXEL_FORMAT_XRGB8888 ==>
        bytes[..] == PixelConversion.RedBlueSwapped(old(bytes[..]), pitch * height - 4) &&
        words[..] == old(words[..])
      ensures pixelFormat == PIXEL_FORMAT_0RGB1555 ==>
        bytes[..] == old(bytes[..]) &&
        (forall j :: 0 <= j < height * pitch / bytesPerPixel ==> words[j] == PixelConversion.From0RGB1555(old(words[j]))) &&
        (forall j :: height * pitch / bytesPerPixel <= j < words.Length ==> words[j] == old(words[j]))
      ensures pixelFormat != PIXEL_FORMAT_XRGB8888 && pixelFormat != PIXEL_FORMAT_0RGB1555 ==>
        bytes[..] == old(bytes[..]) && words[..] == old(words[..])
      ensures calls == (if old(lastFrameSize) != (width, height) then [TexImage(width, height)] else []) +
        UploadCalls(bytesPerPixel, width, height, pitch)
      ensures lastFrameSize == (width, height)
    {
      if pixelFormat == PIXEL_FORMAT_XRGB8888 {
        PixelConversion.ConvertFromRGB8888(bytes, pitch * height);
      } else if pixelFormat == PIXEL_FORMAT_0RGB1555 {
        ConvertDataFrom0RGB1555(words, width, height, pitch);
      }
      var allocation := if lastFrameSize != (width, height) then [TexImage(width, height)] else [];
      var uploads := Uploads(width, height, pitch);
      calls := allocation + uploads;
      lastFrameSize := (width, height);
    }
  }
}
