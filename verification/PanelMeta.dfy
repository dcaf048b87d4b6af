/** The route-to-panel heading table (src/components/menu-route-panel.tsx). */
module PanelMeta {
  import opened MenuRoutes

  datatype PanelMeta = PanelMeta(title: string, description: string)

  /** The panel heading for a route; the home route and anything unexpected get "Home". */
  function GetPanelMeta(route: MenuRoute): (m: PanelMeta)
    ensures route == "/work" <==> m.title == "Work"
    ensures route == "/about" <==> m.title == "About"
    ensures route == "/contact" <==> m.title == "Contact"
    ensures route == "/" <==> m.title == "Home"
    ensures m.description != ""
  {
    match route
    case "/work" =>
      PanelMeta("Work", "Project categories, filters, and sortable placeholders for portfolio content.")
    case "/about" =>
      PanelMeta("About", "Background and profile content blocks to describe your process and experience.")
    case "/contact" =>
      PanelMeta("Contact", "Contact links, collaboration details, and communication channels.")
    case _ =>
      PanelMeta("Home", "Overview panel.")
  }

  /** Each panel is titled with its menu entry's label. */
  lemma PanelTitlesMatchMenuLabels()
    ensures forall i :: 0 <= i < |MenuItems| ==> GetPanelMeta(MenuItems[i].path).title == MenuItems[i].name
  {
    forall i | 0 <= i < |MenuItems|
      ensures GetPanelMeta(MenuItems[i].path).title == MenuItems[i].name
    {
      assert MenuItems[i] in MenuItems;
    }
  }
}
