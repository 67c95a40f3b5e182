/** The project record shown on the landing page and managed on the
    dashboard, and the fixture list both pages start from. */
module Projects {
  import opened Common

  datatype Project = Project(
    id: int,
    title: string,
    description: string,
    techStack: seq<string>,
    imageUrl: string,
    downloadLink: string,
    liveLink: Option<string>)

  /** The six fixture projects (descriptions abridged; links left empty,
      they play no part in any rule). */
  const MockProjects: seq<Project> := [
    Project(1, "Sales Analytics Dashboard",
      "Comprehensive sales performance analysis with interactive visualizations.",
      ["Python", "Pandas", "Plotly", "Dash"], "", "", None),
    Project(2, "Customer Segmentation Analysis",
      "Machine learning-powered customer segmentation using RFM analysis.",
      ["Python", "Scikit-learn", "Matplotlib", "Seaborn"], "", "", None),
    Project(3, "Financial Performance Report",
      "Automated financial reporting system with Power BI integration.",
      ["Power BI", "SQL", "Excel", "DAX"], "", "", None),
    Project(4, "Market Trend Analysis",
      "Time series analysis of market trends with predictive modeling.",
      ["R", "ggplot2", "Time Series", "Tableau"], "", "", None),
    Project(5, "Inventory Optimization Model",
      "Data-driven inventory management system using demand forecasting.",
      ["Python", "NumPy", "SciPy", "Jupyter"], "", "", None),
    Project(6, "HR Analytics Platform",
      "Employee performance analytics with attrition prediction.",
      ["Python", "Pandas", "Power BI", "SQL"], "", "", None)
  ]
}
