/** `getImageSrc` of utils/photos/photo-util/getImgSrc.ts: how a stored
    photo reference becomes an address the browser can load. Absolute
    addresses pass through; anything else is a path in the public `photos`
    bucket of the Supabase project whose URL the environment holds. */
module ImageSrc {
  import opened Common
  import opened Text

  const StorageInfix := "/storage/v1/object/public/photos/"

  /** `s.endsWith(suffix)`. */
  predicate EndsWith(s: string, suffix: string) {
    |suffix| <= |s| && s[|s| - |suffix|..] == suffix
  }

  /** `url.startsWith("http://") || url.startsWith("https://")`. */
  predicate IsAbsolute(url: string) {
    StartsWith(url, "http://") || StartsWith(url, "https://")
  }

  /** How `${process.env.NEXT_PUBLIC_SUPABASE_URL}` renders: the variable's
      value, or the text `undefined` when it is not set. */
  function EnvText(base: Option<string>): string {
    base.GetOr("undefined")
  }

  /** `getImageSrc(url)` with the environment variable as `base`. */
  function ImageSrc(base: Option<string>, url: string): (src: string)
    ensures IsAbsolute(url) ==> src == url
    ensures !IsAbsolute(url) ==> src == EnvText(base) + StorageInfix + url
  {
    if IsAbsolute(url) then url else EnvText(base) + StorageInfix + url
  }

  /** A prefix of a string is a prefix of any extension of it. */
  lemma StartsWithAppend(s: string, t: string, prefix: string)
    requires StartsWith(s, prefix)
    ensures StartsWith(s + t, prefix)
  {
    assert (s + t)[..|prefix|] == s[..|prefix|];
  }

  /** In both branches the address ends with the reference it was made of. */
  lemma ImageSrcEndsWithUrl(base: Option<string>, url: string)
    ensures EndsWith(ImageSrc(base, url), url)
  {
    var src := ImageSrc(base, url);
    if !IsAbsolute(url) {
      assert src[|src| - |url|..] == url;
    }
  }

  /** With an absolute project URL every result is absolute, so applying the
      function to its own result changes nothing. */
  lemma ImageSrcIdempotent(base: Option<string>, url: string)
    requires base.Some? && IsAbsolute(base.value)
    ensures IsAbsolute(ImageSrc(base, url))
    ensures ImageSrc(base, ImageSrc(base, url)) == ImageSrc(base, url)
  {
    if !IsAbsolute(url) {
      if StartsWith(base.value, "http://") {
        StartsWithAppend(base.value, StorageInfix + url, "http://");
      } else {
        StartsWithAppend(base.value, StorageInfix + url, "https://");
      }
      assert base.value + StorageInfix + url == base.value + (StorageInfix + url);
    }
  }

  /** Without the environment variable a relative reference becomes the
      relative path `undefined/storage/...`, which a second application
      prefixes again. */
  lemma UnsetBaseNotIdempotent(url: string)
    requires !IsAbsolute(url)
    ensures ImageSrc(None, url) == "undefined" + StorageInfix + url
    ensures ImageSrc(None, ImageSrc(None, url)) != ImageSrc(None, url)
  {
    var once := ImageSrc(None, url);
    assert once[..7] == "undefin";
    assert !IsAbsolute(once);
    assert |ImageSrc(None, once)| > |once|;
  }
}
