/**
 * The page-world script (ghost-ui/extension/injected.js): the globals it
 * keeps on the page's `window` and the mount toggle it defines. React's
 * rendering is abstracted to the `mounted` flag.
 */
module Injected {

  /** The page's `window` globals and the root elements in its DOM. */
  class PageWindow {
    /** `window.__ghostUI_root` is set. */
    var hasRoot: bool
    /** How many `__ghostUI_root` divs have been appended to the document. */
    var rootElements: nat
    /** `window.mountGhostUI` is defined. */
    var mountDefined: bool
    /** `window.__ghostUI_mounted` (initially `undefined`, i.e. false). */
    var mounted: bool

    /** The root global, the root element and the toggle appear together,
        and nothing is mounted without a root. */
    ghost predicate Valid()
      reads this
    {
      && rootElements == (if hasRoot then 1 else 0)
      && mountDefined == hasRoot
      && (mounted ==> hasRoot)
    }

    constructor ()
      ensures Valid() && !hasRoot && !mounted
    {
      hasRoot, rootElements, mountDefined, mounted := false, 0, false, false;
    }

    /** One evaluation of the script. Only the first creates the root and
        defines `mountGhostUI`; every later one finds the root global and
        does nothing. */
    method EvaluateScript()
      requires Valid()
      modifies this
      ensures Valid() && hasRoot && rootElements == 1 && mountDefined
      ensures mounted == old(mounted)
      ensures old(hasRoot) ==> unchanged(this)
    {
      if !hasRoot {
        rootElements := rootElements + 1;
        hasRoot := true;
        mountDefined := true;
      }
    }

    /** `window.mountGhostUI()`: unmount when mounted, render otherwise. */
    method MountGhostUI()
      requires Valid() && mountDefined
      modifies this
      ensures Valid() && mounted == !old(mounted)
      ensures hasRoot == old(hasRoot) && rootElements == old(rootElements) && mountDefined
    {
      if mounted {
        mounted := false;
      } else {
        mounted := true;
      }
    }
  }
}
