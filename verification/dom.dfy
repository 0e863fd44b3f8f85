/**
 * Page objects several modules write to.
 */
module Dom {
  import opened Js

  /**
   * The document body. The only part modelled is `style.overflow`, the
   * scroll lock that the review modal and the mobile menu share.
   */
  class Body {
    var overflow: string

    constructor (overflow: string)
      ensures this.overflow == overflow
    {
      this.overflow := overflow;
    }
  }

  /**
   * `document.documentElement`, with the theme-color meta tag: the class
   * list, the `color-scheme` style and the meta tag's `content`, when the
   * tag exists.
   */
  class Root {
    var classes: set<string>
    var colorScheme: Option<string>
    const hasThemeColorMeta: bool
    var themeColor: Option<string>

    constructor (classes: set<string>, hasThemeColorMeta: bool)
      ensures this.classes == classes && this.hasThemeColorMeta == hasThemeColorMeta
      ensures colorScheme.None? && themeColor.None?
    {
      this.classes := classes;
      this.hasThemeColorMeta := hasThemeColorMeta;
      colorScheme := None;
      themeColor := None;
    }
  }

  /** `localStorage`: string keys to string values. */
  class Storage {
    var items: map<string, string>

    constructor (items: map<string, string>)
      ensures this.items == items
    {
      this.items := items;
    }

    /** `getItem(key)`: the stored value, or null. */
    function GetItem(key: string): (r: Option<string>)
      reads this
      ensures r.Some? <==> key in items
      ensures r.Some? ==> r.value == items[key]
    {
      if key in items then Some(items[key]) else None
    }

    /** `setItem(key, value)` */
    method SetItem(key: string, value: string)
      modifies this
      ensures items == old(items)[key := value]
    {
      items := items[key := value];
    }

    /** `removeItem(key)` */
    method RemoveItem(key: string)
      modifies this
      ensures items == old(items) - {key}
    {
      items := items - {key};
    }
  }
}
