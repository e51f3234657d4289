/**
 * The project gallery of src/components/Gallery.jsx: a fixed catalogue, a category
 * filter and the project opened in the detail overlay.
 *
 * `String.prototype.toLowerCase` is Unicode-aware (the categories carry accents), so
 * it is a parameter `lower` here rather than a definition.
 */
module Gallery {
  import opened Wrappers

  datatype Project = Project(
    id: nat,
    title: string,
    category: string,
    location: string,
    description: string,
    image: string)

  /** A filter button: the value it stores and the caption it shows (`label` in the source). */
  datatype Category = Category(id: string, caption: string)

  /** The category that shows the whole catalogue. */
  const AllCategories: string := "todas"

  const Projects: seq<Project> := [
    Project(1, "Cocina Minimalista Premium", "Modernas", "Madrid, España",
      "Diseño de cocina abierta con isla central, superficies de cuarzo y electrodomésticos integrados.",
      "bg-gradient-to-br from-primary-600 to-primary-800"),
    Project(2, "Cocina Clásica Artesanal", "Clásicas", "Sevilla, España",
      "Cocina de estilo tradicional con carpintería de madera de nogal y acabados dorados.",
      "bg-gradient-to-br from-amber-700 to-amber-900"),
    Project(3, "Espacio Contemporáneo", "Contemporáneas", "Barcelona, España",
      "Fusión de materiales: acero inoxidable, mármol negro y madera de olivo.",
      "bg-gradient-to-br from-primary-700 to-primary-900"),
    Project(4, "Cocina de Diseño Italiano", "Modernas", "Valencia, España",
      "Diseños italianos minimalistas con líneas puras y tecnología de vanguardia.",
      "bg-gradient-to-br from-stone-600 to-stone-800"),
    Project(5, "Cocina Rústica de Lujo", "Clásicas", "Toledo, España",
      "Combinación de piedra natural, madera recuperada y hierro forjado artesanal.",
      "bg-gradient-to-br from-amber-800 to-amber-950"),
    Project(6, "Cocina Integral Moderna", "Contemporáneas", "Málaga, España",
      "Diseño continuo sin divisiones, perfecto para espacios abiertos y sociales.",
      "bg-gradient-to-br from-primary-500 to-primary-700")
  ]

  const Categories: seq<Category> := [
    Category("todas", "Todas"),
    Category("modernas", "Modernas"),
    Category("clásicas", "Clásicas"),
    Category("contemporáneas", "Contemporáneas")
  ]

  /** `a` is `b` with some elements left out, the rest in their original order. */
  predicate IsSubsequence<T(==)>(a: seq<T>, b: seq<T>)
    decreases |b|
  {
    if a == [] then true
    else if b == [] then false
    else (a[0] == b[0] && IsSubsequence(a[1..], b[1..])) || IsSubsequence(a, b[1..])
  }

  lemma {:induction false} SubsequenceReflexive<T>(a: seq<T>)
    ensures IsSubsequence(a, a)
  {
    if a != [] {
      SubsequenceReflexive(a[1..]);
    }
  }

  lemma {:induction false} SubsequenceNoLonger<T>(a: seq<T>, b: seq<T>)
    requires IsSubsequence(a, b)
    ensures |a| <= |b|
    decreases |b|
  {
    if a != [] {
      if a[0] == b[0] && IsSubsequence(a[1..], b[1..]) {
        SubsequenceNoLonger(a[1..], b[1..]);
      } else {
        SubsequenceNoLonger(a, b[1..]);
      }
    }
  }

  /** `p.category.toLowerCase() === activeCategory.toLowerCase()` */
  predicate SameCategory(p: Project, active: string, lower: string -> string) {
    lower(p.category) == lower(active)
  }

  /** `projects.filter(...)`: the projects of the active category, each as often as it occurs. */
  function FilterByCategory(ps: seq<Project>, active: string, lower: string -> string): (r: seq<Project>)
    ensures forall p :: multiset(r)[p] == if SameCategory(p, active, lower) then multiset(ps)[p] else 0
    ensures IsSubsequence(r, ps)
  {
    if ps == [] then []
    else
      assert ps == [ps[0]] + ps[1..];
      var rest := FilterByCategory(ps[1..], active, lower);
      if SameCategory(ps[0], active, lower) then
        assert ([ps[0]] + rest)[1..] == rest;
        [ps[0]] + rest
      else
        rest
  }

  /** `filteredProjects`: the catalogue under the wildcard, otherwise the projects of the category. */
  function FilteredProjects(projects: seq<Project>, activeCategory: string, lower: string -> string): (r: seq<Project>)
    ensures activeCategory == AllCategories ==> r == projects
    ensures activeCategory != AllCategories ==>
      forall p :: multiset(r)[p] == if lower(p.category) == lower(activeCategory) then multiset(projects)[p] else 0
    ensures activeCategory != AllCategories ==>
      forall p :: p in r <==> p in projects && lower(p.category) == lower(activeCategory)
    ensures IsSubsequence(r, projects) && |r| <= |projects|
  {
    if activeCategory == AllCategories then
      SubsequenceReflexive(projects);
      projects
    else
      var r := FilterByCategory(projects, activeCategory, lower);
      assert forall p :: p in r <==> p in multiset(r);
      SubsequenceNoLonger(r, projects);
      r
  }

  /**
   * Each filter button other than the wildcard shows exactly the catalogue's projects
   * labelled with its text, given that lower-casing maps each label to its button's id
   * and leaves the ids alone.
   */
  lemma CategoryButtonShowsItsLabel(lower: string -> string, k: nat)
    requires forall c :: c in Categories ==> lower(c.caption) == c.id && lower(c.id) == c.id
    requires 1 <= k < |Categories|
    ensures forall p :: p in FilteredProjects(Projects, Categories[k].id, lower) <==>
      p in Projects && p.category == Categories[k].caption
  {
    var c := Categories[k];
    assert c in Categories;
    forall p | p in Projects
      ensures lower(p.category) == lower(c.id) <==> p.category == c.caption
    {
      assert Categories[1] in Categories && Categories[2] in Categories && Categories[3] in Categories;
    }
  }

  /** Buttons are told apart by their ids. */
  lemma CategoryIdsDistinct()
    ensures forall i, j :: 0 <= i < j < |Categories| ==> Categories[i].id != Categories[j].id
  {
  }

  /**
   * The two state cells of the `Gallery` component and the handlers that overwrite them.
   */
  class GalleryState {
    var activeCategory: string
    var selectedProject: Option<Project>

    /** `useState('todas')` and `useState(null)`. */
    constructor()
      ensures activeCategory == AllCategories && selectedProject == None
    {
      activeCategory := AllCategories;
      selectedProject := None;
    }

    /** The projects the grid renders. */
    function VisibleProjects(lower: string -> string): seq<Project>
      reads this
    {
      FilteredProjects(Projects, activeCategory, lower)
    }

    /** Whether a filter button is drawn as the active one. */
    predicate IsActive(c: Category)
      reads this
    {
      activeCategory == c.id
    }

    /** The highlight test compares ids, which are distinct, so no two buttons are active at once. */
    lemma AtMostOneButtonActive()
      ensures forall c1, c2 :: c1 in Categories && c2 in Categories && IsActive(c1) && IsActive(c2) ==> c1 == c2
    {
      CategoryIdsDistinct();
      forall c1, c2 | c1 in Categories && c2 in Categories && IsActive(c1) && IsActive(c2)
        ensures c1 == c2
      {
        var i :| 0 <= i < |Categories| && Categories[i] == c1;
        var j :| 0 <= j < |Categories| && Categories[j] == c2;
        assert i == j;
      }
    }

    /** Whether the detail overlay is shown. */
    predicate OverlayOpen()
      reads this
    {
      selectedProject.Some?
    }

    /** A filter button's click: `setActiveCategory(category.id)`. */
    method SetActiveCategory(id: string)
      modifies this
      ensures activeCategory == id
      ensures selectedProject == old(selectedProject)
    {
      activeCategory := id;
    }

    /** A project card's click: `setSelectedProject(project)`. */
    method SelectProject(p: Project)
      modifies this
      ensures selectedProject == Some(p)
      ensures activeCategory == old(activeCategory)
    {
      selectedProject := Some(p);
    }

    /** A click on the backdrop or on the close button: `setSelectedProject(null)`. */
    method CloseProject()
      modifies this
      ensures selectedProject == None
      ensures activeCategory == old(activeCategory)
    {
      selectedProject := None;
    }
  }
}
